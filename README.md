# LC-3 virtual machine core, modelled in Dafny

`lc3.cpp` is the start of an LC-3 virtual machine. It keeps 65535 memory
words and ten 16-bit registers: R0-R7, the program counter and the condition
register COND. Its run loop fetches an instruction, decodes the opcode in
the top 4 bits and executes it. The source writes out only five handlers:
ADD, AND, NOT, BR and LDI. Two helpers carry the bit arithmetic:
`sign_extended`, which widens a bit field, and `update_flags`, which sets
COND from a register's value.

The project has five modules:

- `Bits` (`bits.dfy`): 16-bit words (`bv16`, so all arithmetic wraps modulo
  2^16) and `sign_extended` exactly as written.
- `Isa` (`isa.dfy`): the register, opcode and flag enumerations, the memory
  size, and the instruction-field extractors.
- `Semantics` (`semantics.dfy`): the machine state as a value (`State`, with
  the register file and memory as sequences). Fetch, each handler, one `Step`
  and a bounded `Run` are functions of it.
- `Machine` (`machine.dfy`): the class `Cpu`, whose `reg` and `memory`
  arrays are updated in place the way the source updates its global arrays.
  Each method is proved to leave the arrays in the state the matching
  `Semantics` function computes.
- `Properties` (`properties.dfy`): what each step does, stated over the raw
  instruction bits. It also holds the invariants runs keep and a few
  concrete instructions.

How a step ends is an `Outcome`:

- `Executed`: one of the five written handlers ran.
- `Unwritten(op)`: the opcode's handler is a placeholder in the source. The
  state is the one after the fetch.
- `OutOfRange(a)`: the step would read address 0xFFFF. Memory is
  `uint16_t memeory[UINT16_MAX]`, 65535 words, so that address lies past the
  array and the read is undefined behaviour in C.

Points where the model departs from the LC-3 as documented, or where the
file gives no answer and the model makes a choice:

- `sign_extended` tests bit `bit_count` rather than bit `bit_count - 1`
  (lc3.cpp:67). Every call site passes a field already masked to
  `bit_count` bits, so no value is ever extended. In this model, as in the
  code, `ADD R0, R1, #-1` adds 31. The model keeps this behaviour; it does
  not substitute the textbook one.
- Memory has 65535 words, not 65536.
- NOT (lc3.cpp:160) redeclares `r0` where the source register `r1`
  (bits 8-6) is meant, so the file does not compile. Here the model
  follows the intent, not the code: register `r0` receives the complement
  of register `r1`, as the documented LC-3 does.
- `mem_read` is called but never defined. It is modelled as a plain read of
  the memory array.
- `reg[R_PC] + pc_offset` in LDI (lc3.cpp:197) is an `int` sum whose
  conversion depends on `mem_read`'s undeclared parameter type. The model
  wraps it to 16 bits, like every other address computation.

## Model

| member | source | states |
|---|---|---|
| Bits.SignExtended | lc3.cpp:65-71 | when bit `bit_count` of `x` is clear (or `bit_count` is 16 or more) the result is `x` itself |
| Bits.SignExtendedKeepsLowBits | lc3.cpp:65-71 | bits below `bit_count` of the result equal those of `x` |
| Bits.SignExtendedFillsHighBits | lc3.cpp:67-68 | when bit `bit_count` of `x` is set, every bit from `bit_count` to 15 of the result is 1 |
| Bits.SignExtendedOfMaskedField | lc3.cpp:65-71 | a value with no bit at or above `bit_count` comes back unchanged |
| Bits.SignExtendedCallSitesAreIdentity | lc3.cpp:120 | `instr & 0x1F` with 5 and `instr & 0x1FF` with 9, the arguments of all four call sites, come back unchanged |
| Bits.SignExtendedOfAllOnesField | lc3.cpp:172 | the all-ones 5- and 9-bit fields, −1 to the instruction set, come back as 31 and 511 although their top bit is set |
| Isa.Opcode | lc3.cpp:106 | the opcode `instr >> 12` is at most 15, and is 15 (TRAP) exactly for instructions from 0xF000 up |
| Isa.Dst | lc3.cpp:112 | the destination field `(instr >> 9) & 0x7` names one of R0-R7 |
| Isa.Src1 | lc3.cpp:114 | the first-source field `(instr >> 6) & 0x7` names one of R0-R7 |
| Isa.Src2 | lc3.cpp:125 | the second-source field `instr & 0x7` names one of R0-R7 |
| Isa.CondMask | lc3.cpp:170 | the branch mask `(instr >> 9) & 0x7` is at most 7 |
| Isa.Imm5IsRawField | lc3.cpp:120 | the operand `sign_extended(instr & 0x1F, 5)` is the raw field `instr & 0x1F` |
| Isa.PcOffset9IsRawField | lc3.cpp:172 | the offset `sign_extended(instr & 0x1FF, 9)` is the raw field `instr & 0x1FF` |
| Semantics.Initial | lc3.cpp:60-99 | with no image loaded, memory and every register but the program counter are zero, and the program counter is 0x3000 |
| Semantics.MemRead | lc3.cpp:60 | a read succeeds exactly for addresses other than 0xFFFF and then returns that memory word; it fails at 0xFFFF, naming the address |
| Semantics.FlagOf | lc3.cpp:76-82 | the flag is one of FL_POS, FL_ZRO, FL_NEG: FL_ZRO exactly for 0, FL_NEG exactly when bit 15 is set, FL_POS exactly for 1 .. 0x7FFF |
| Semantics.UpdateFlags | lc3.cpp:74-83 | COND receives the flag of register `r`; no other register changes |
| Semantics.Fetch | lc3.cpp:105 | the instruction is the read at the old program counter; the program counter advances by one, wrapping; no other register and no memory word changes |
| Semantics.Run | lc3.cpp:102 | a run of `n` steps stops early only at a step that is not Executed, takes at least one step when `n > 0`, and keeps the state well formed |
| Semantics.Step | lc3.cpp:102-233 | keeps the state well formed; what each opcode does is stated by Properties.AddStep, AndStep, NotStep, BranchStep, LoadIndirectStep, UnwrittenStep and FetchOutOfRange |
| Semantics.Execute | lc3.cpp:108-232 | the dispatch never writes memory, and ends as Unwritten, with the state untouched and the opcode named, exactly for opcodes other than ADD, AND, NOT, BR and LDI |
| Semantics.Add | lc3.cpp:110-131 | ADD executes and writes no memory; the register effect is stated by Properties.AddStep |
| Semantics.And | lc3.cpp:133-154 | AND executes and writes no memory; the register effect is stated by Properties.AndStep |
| Semantics.Not | lc3.cpp:156-166 | NOT executes and writes no memory; the register effect is stated by Properties.NotStep |
| Semantics.Branch | lc3.cpp:168-177 | BR executes and changes only the program counter; when it changes is stated by Properties.BranchStep |
| Semantics.LoadIndirect | lc3.cpp:191-201 | LDI writes no memory and changes no register but `r0` and COND; it either executes or ends as OutOfRange at 0xFFFF with the state untouched |
| Semantics.Operand | lc3.cpp:118-127 | in immediate mode the operand is at most 31 (never negative), otherwise it is register `r2` |
| Semantics.PcRelative | lc3.cpp:175 | the target is the wrapped sum of the program counter and the raw field `instr & 0x1FF` (also lc3.cpp:197) |
| Semantics.SetAndFlag | lc3.cpp:121-129 | the register receives the value, COND the value's flag, no other register or memory word changes, and the step executes |
| Properties.RunStopsAtFirstFailure | lc3.cpp:102-233 | a run whose first step is not Executed ends there, with that step's state and outcome and a count of 1 |
| Properties.RunContinuesAfterExecuted | lc3.cpp:102-233 | a run whose first step executes continues from the state it leaves, counting one more step |
| Isa.ImmFlag | lc3.cpp:116 | immediate mode holds exactly when the instruction shares a bit with the mask 0x20 |
| Isa.Imm5 | lc3.cpp:120 | `sign_extended(instr & 0x1F, 5)` is at most 31: as written it never yields a negative operand (also lc3.cpp:143) |
| Isa.PcOffset9 | lc3.cpp:172 | `sign_extended(instr & 0x1FF, 9)` is at most 511: as written it never yields a backward offset (also lc3.cpp:195) |
| Properties.AddStep | lc3.cpp:110-131 | ADD sets register `r0` to the wrapped sum of `r1` and either the raw imm5 field (bit 5 set) or `r2`; COND is the sum's flag and the program counter is advanced; nothing else changes |
| Properties.AndStep | lc3.cpp:133-154 | AND sets register `r0` to `r1` and either the raw imm5 field or `r2`, with no bit above bit 4 in immediate mode; COND is the result's flag and the program counter is advanced; nothing else changes |
| Properties.NotStep | lc3.cpp:156-166 | NOT sets register `r0` to the complement of `r1`: together they cover every bit and share none; COND and the program counter are updated; nothing else changes |
| Properties.BranchStep | lc3.cpp:168-177 | BR adds the raw 9-bit offset to the advanced program counter exactly when the mask shares a bit with COND; no other register and no memory word changes |
| Properties.BranchTakenIff | lc3.cpp:174 | with a valid COND the branch is taken exactly when the mask bit for the current flag (11 for N, 10 for Z, 9 for P) is set; mask 7 always branches, mask 0 never, mask 2 exactly on FL_ZRO |
| Properties.LoadIndirectStep | lc3.cpp:191-201 | LDI reads the target address stored in the slot at `pc + 1 + offset`, loads register `r0` from the target and sets COND from it; a slot or target of 0xFFFF ends the step as OutOfRange with only the program counter changed; memory is never written |
| Properties.UnwrittenStep | lc3.cpp:179-231 | every opcode other than the five written ones ends the step as Unwritten, in the state after the fetch |
| Properties.FetchOutOfRange | lc3.cpp:105 | fetching from 0xFFFF ends the step as OutOfRange(0xFFFF), with the program counter wrapped to 0, every other register and all of memory unchanged |
| Properties.StepKeepsMemory | lc3.cpp:101-233 | no step writes memory |
| Properties.StepKeepsFlag | lc3.cpp:74-83 | once COND holds one of the three flags, every step keeps it so |
| Properties.FlagSettingStep | lc3.cpp:129 | an executed ADD, AND, NOT or LDI leaves in COND exactly the flag of the register it wrote |
| Properties.RunKeepsMemory | lc3.cpp:102-233 | no bounded run writes memory |
| Properties.RunKeepsFlag | lc3.cpp:102-233 | a valid COND stays valid over any bounded run |
| Properties.AddImmediateExample | lc3.cpp:110-131 | `ADD R0, R1, #5` (0x1065) with R1 = 10 leaves R0 = 15 and FL_POS |
| Properties.AddMinusOneExample | lc3.cpp:120-121 | `ADD R0, R1, #-1` (0x107F) with R1 = 0 leaves R0 = 0x001F and FL_POS, because the immediate is not sign-extended |
| Properties.LoadIndirectExample | lc3.cpp:191-201 | `LDI R2, #2` at 0x3000, with 0x3003 holding `a` and `a` holding 42, leaves R2 = 42 and FL_POS |
| Properties.InitialStep | lc3.cpp:96-106 | smoke test with no image loaded: from the initial state, the first step executes word 0, a BR with an empty mask, and only advances the program counter |
| Machine.Cpu.constructor | lc3.cpp:60-99 | the fresh arrays hold `Semantics.Initial()` |
| Machine.Cpu.MemRead | lc3.cpp:197 | for an address in the array, the read returns what `Semantics.MemRead` returns |
| Machine.Cpu.UpdateFlags | lc3.cpp:74-83 | the register array afterwards is `Semantics.UpdateFlags` of the array before; memory is not touched |
| Machine.Cpu.Step | lc3.cpp:101-233 | the arrays afterwards and the outcome are `Semantics.Step` of the state before |
| Machine.Cpu.Add | lc3.cpp:110-131 | in-place ADD agrees with `Semantics.Add` |
| Machine.Cpu.And | lc3.cpp:133-154 | in-place AND agrees with `Semantics.And` |
| Machine.Cpu.Not | lc3.cpp:156-166 | in-place NOT agrees with `Semantics.Not` |
| Machine.Cpu.Branch | lc3.cpp:168-177 | in-place BR agrees with `Semantics.Branch` |
| Machine.Cpu.LoadIndirect | lc3.cpp:191-201 | in-place LDI agrees with `Semantics.LoadIndirect` |
| Machine.Cpu.Run | lc3.cpp:102-233 | up to `n` iterations of the loop leave the arrays, step count and last outcome that `Semantics.Run` computes |

## Left out

- The placeholder blocks (`{Load Arguments, 12}`, `{Setup, 12}`,
  `{Shutdown, 12}`, and JMP, JSR, LD, LDR, LEA, ST, STI, STR, TRAP, RES, RTI
  and the default case at lc3.cpp:179-231) have no source text to model.
  Their opcodes end a step as `Unwritten`.
- TRAP routines and the keyboard registers a full `mem_read` would poll are
  console I/O, and nothing of them is in the file.
- Loading a program image, command-line handling, terminal raw mode and the
  signal handler are operating-system plumbing.
- The unbounded `while (running)` loop is modelled as a bounded `Run(n)`.
  `running` is never cleared in the file.
- Semantics.Fetch: "PC + 1 mod 2^16" and the other wrapping sums are stated
  as `bv16` addition (`WrappingAdd`). No lemma restates them over integers
  with `% 65536`.
- Semantics.UpdateFlags: requires `r < R_COUNT`. In the source a larger
  `r` indexes past `reg`, and every caller passes a 3-bit register field.
