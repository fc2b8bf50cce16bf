/** What one step and a bounded run of the LC-3 machine do, stated over the
    raw instruction bits (lc3.cpp:74-83, 101-233). */
module Properties {
  import opened Bits
  import opened Isa
  import opened Semantics

  /** The instruction a step of `s` fetches. */
  function Fetched(s: State): Word
    requires s.Valid() && InMemory(s.reg[R_PC])
  {
    MemRead(s.mem, s.reg[R_PC]).value
  }

  /** Registers other than `a`, `b` and `c` are equal in `r` and `r'`. */
  predicate OthersUnchanged(r: seq<Word>, r': seq<Word>, a: nat, b: nat, c: nat)
    requires |r| == R_COUNT && |r'| == R_COUNT
  {
    forall i :: 0 <= i < R_COUNT && i != a && i != b && i != c ==> r'[i] == r[i]
  }

  /** ADD (lc3.cpp:110-131): register `r0` (bits 11-9) receives the wrapped sum
      of register `r1` (bits 8-6) and the operand, COND the flag of the sum,
      the program counter has advanced past the instruction, and nothing else
      changes. Because `sign_extended` never extends (lc3.cpp:67), the
      immediate operand is the raw 5-bit field, 0 .. 31. */
  lemma AddStep(s: State)
    requires s.Valid() && InMemory(s.reg[R_PC]) && Opcode(Fetched(s)) == OP_ADD
    ensures var instr, t := Fetched(s), Step(s);
      var operand := if ImmFlag(instr) then BitAnd(instr, 0x1F) else s.reg[Src2(instr)];
      && t.outcome == Executed
      && t.state.mem == s.mem
      && t.state.reg[Dst(instr)] == WrappingAdd(s.reg[Src1(instr)], operand)
      && t.state.reg[R_COND] == FlagOf(t.state.reg[Dst(instr)])
      && t.state.reg[R_PC] == WrappingAdd(s.reg[R_PC], 1)
      && OthersUnchanged(s.reg, t.state.reg, Dst(instr), R_PC, R_COND)
  {
    var instr := Fetched(s);
    Imm5IsRawField(instr);
    assert Step(s) == Add(instr, Fetch(s).1);
  }

  /** AND (lc3.cpp:133-154): as ADD, with the bitwise and. In immediate mode
      the result has no bit set above bit 4. */
  lemma AndStep(s: State)
    requires s.Valid() && InMemory(s.reg[R_PC]) && Opcode(Fetched(s)) == OP_AND
    ensures var instr, t := Fetched(s), Step(s);
      var operand := if ImmFlag(instr) then BitAnd(instr, 0x1F) else s.reg[Src2(instr)];
      && t.outcome == Executed
      && t.state.mem == s.mem
      && t.state.reg[Dst(instr)] == BitAnd(s.reg[Src1(instr)], operand)
      && (ImmFlag(instr) ==> t.state.reg[Dst(instr)] <= 0x1F)
      && t.state.reg[R_COND] == FlagOf(t.state.reg[Dst(instr)])
      && t.state.reg[R_PC] == WrappingAdd(s.reg[R_PC], 1)
      && OthersUnchanged(s.reg, t.state.reg, Dst(instr), R_PC, R_COND)
  {
    var instr := Fetched(s);
    Imm5IsRawField(instr);
    assert Step(s) == And(instr, Fetch(s).1);
  }

  /** NOT (lc3.cpp:156-166, with the source register read from bits 8-6 as
      lc3.cpp:160 evidently intends): every bit of register `r0` is the
      opposite of the same bit of register `r1`. */
  lemma NotStep(s: State)
    requires s.Valid() && InMemory(s.reg[R_PC]) && Opcode(Fetched(s)) == OP_NOT
    ensures var instr, t := Fetched(s), Step(s);
      && t.outcome == Executed
      && t.state.mem == s.mem
      && t.state.reg[Dst(instr)] | s.reg[Src1(instr)] == 0xFFFF
      && t.state.reg[Dst(instr)] & s.reg[Src1(instr)] == 0
      && t.state.reg[R_COND] == FlagOf(t.state.reg[Dst(instr)])
      && t.state.reg[R_PC] == WrappingAdd(s.reg[R_PC], 1)
      && OthersUnchanged(s.reg, t.state.reg, Dst(instr), R_PC, R_COND)
  {
  }

  /** BR (lc3.cpp:168-177): the program counter moves by the 9-bit offset
      field exactly when the mask in bits 11-9 shares a bit with COND, and
      otherwise stays just past the instruction; COND, every other register
      and memory are unchanged. BranchTakenIff spells the condition out. */
  lemma BranchStep(s: State)
    requires s.Valid() && InMemory(s.reg[R_PC]) && Opcode(Fetched(s)) == OP_BR
    ensures var instr, t := Fetched(s), Step(s);
      && t.outcome == Executed
      && t.state.mem == s.mem
      && t.state.reg[R_PC] == (if BitAnd(CondMask(instr), s.reg[R_COND]) != 0
                               then WrappingAdd(WrappingAdd(s.reg[R_PC], 1), BitAnd(instr, 0x1FF))
                               else WrappingAdd(s.reg[R_PC], 1))
      && OthersUnchanged(s.reg, t.state.reg, R_PC, R_PC, R_PC)
  {
    var instr := Fetched(s);
    PcOffset9IsRawField(instr);
    assert Step(s) == Branch(instr, Fetch(s).1);
  }

  /** With a valid COND, the mask bits 11, 10 and 9 select the negative,
      zero and positive flag: a branch is taken exactly when the bit for the
      current flag is set (the condition BranchStep tests). So mask 0b111
      always branches, mask 0b000 never does, and mask 0b010 branches
      exactly when COND is FL_ZRO. */
  lemma BranchTakenIff(s: State)
    requires s.Valid() && InMemory(s.reg[R_PC]) && Opcode(Fetched(s)) == OP_BR
    requires IsFlag(s.reg[R_COND])
    ensures var instr, c := Fetched(s), s.reg[R_COND];
      var taken := BitAnd(CondMask(instr), c) != 0;
      && (taken <==>
            (c == FL_NEG && BitSet(instr, 11)) ||
            (c == FL_ZRO && BitSet(instr, 10)) ||
            (c == FL_POS && BitSet(instr, 9)))
      && (CondMask(instr) == 0x7 ==> taken)
      && (CondMask(instr) == 0x2 ==> (taken <==> c == FL_ZRO))
      && (CondMask(instr) == 0x0 ==> !taken)
  {
  }

  /** LDI (lc3.cpp:191-201): the slot address is the incremented program
      counter plus the 9-bit offset field, wrapping; the slot holds the
      target address, and register `r0` receives the word at the target and
      COND its flag. A read of address 0xFFFF, which the memory array lacks,
      ends the step with OutOfRange and no register but the program counter
      changed. Memory is never written. */
  lemma LoadIndirectStep(s: State)
    requires s.Valid() && InMemory(s.reg[R_PC]) && Opcode(Fetched(s)) == OP_LDI
    ensures var instr, t := Fetched(s), Step(s);
      var slot := WrappingAdd(WrappingAdd(s.reg[R_PC], 1), BitAnd(instr, 0x1FF));
      && t.state.mem == s.mem
      && t.state.reg[R_PC] == WrappingAdd(s.reg[R_PC], 1)
      && (slot == 0xFFFF ==>
            && t.outcome == OutOfRange(0xFFFF)
            && OthersUnchanged(s.reg, t.state.reg, R_PC, R_PC, R_PC))
      && (slot != 0xFFFF ==>
            var target := MemRead(s.mem, slot).value;
            && (target == 0xFFFF ==>
                  && t.outcome == OutOfRange(0xFFFF)
                  && OthersUnchanged(s.reg, t.state.reg, R_PC, R_PC, R_PC))
            && (target != 0xFFFF ==>
                  && t.outcome == Executed
                  && t.state.reg[Dst(instr)] == MemRead(s.mem, target).value
                  && t.state.reg[R_COND] == FlagOf(t.state.reg[Dst(instr)])
                  && OthersUnchanged(s.reg, t.state.reg, Dst(instr), R_PC, R_COND)))
  {
    var instr := Fetched(s);
    PcOffset9IsRawField(instr);
    assert Step(s) == LoadIndirect(instr, Fetch(s).1);
  }

  /** The opcodes whose handlers are placeholders in the source
      (lc3.cpp:179-231) end the step with Unwritten after the fetch. */
  lemma UnwrittenStep(s: State)
    requires s.Valid() && InMemory(s.reg[R_PC])
    requires Opcode(Fetched(s)) !in {OP_ADD, OP_AND, OP_NOT, OP_BR, OP_LDI}
    ensures Step(s) == Transition(Fetch(s).1, Unwritten(Fetched(s) >> 12))
  {
  }

  /** Fetching from address 0xFFFF, which lies beyond the 65535-word memory
      array, ends the step with OutOfRange; the post-increment has already
      wrapped the program counter to 0. */
  lemma FetchOutOfRange(s: State)
    requires s.Valid() && !InMemory(s.reg[R_PC])
    ensures Step(s).outcome == OutOfRange(0xFFFF)
    ensures Step(s).state.reg[R_PC] == 0
    ensures Step(s).state.mem == s.mem
    ensures OthersUnchanged(s.reg, Step(s).state.reg, R_PC, R_PC, R_PC)
  {
  }

  /** No step writes memory. */
  lemma StepKeepsMemory(s: State)
    requires s.Valid()
    ensures Step(s).state.mem == s.mem
  {
  }

  /** Once COND holds one of the three flags, every step keeps it so: the
      handlers that write COND write FlagOf of a value, the others leave it. */
  lemma StepKeepsFlag(s: State)
    requires s.Valid() && IsFlag(s.reg[R_COND])
    ensures IsFlag(Step(s).state.reg[R_COND])
  {
  }

  /** Every executed ADD, AND, NOT or LDI leaves in COND exactly the flag of
      the register it wrote. */
  lemma FlagSettingStep(s: State)
    requires s.Valid() && InMemory(s.reg[R_PC])
    requires Opcode(Fetched(s)) in {OP_ADD, OP_AND, OP_NOT, OP_LDI}
    ensures Step(s).outcome == Executed ==>
      Step(s).state.reg[R_COND] == FlagOf(Step(s).state.reg[Dst(Fetched(s))])
  {
  }

  /** A run ends at the first step that is not Executed: its state, step
      count and outcome are that step's. */
  lemma RunStopsAtFirstFailure(s: State, n: nat)
    requires s.Valid() && n > 0 && !Step(s).outcome.Executed?
    ensures Run(s, n) == RunResult(Step(s).state, 1, Step(s).outcome)
  {
  }

  /** A run whose first step executes goes on from the state that step
      leaves, with one more step counted. */
  lemma RunContinuesAfterExecuted(s: State, n: nat)
    requires s.Valid() && n > 0 && Step(s).outcome.Executed?
    ensures var rest := Run(Step(s).state, n - 1);
      Run(s, n) == rest.(steps := rest.steps + 1)
  {
  }

  /** No run writes memory. */
  lemma {:induction false} RunKeepsMemory(s: State, n: nat)
    requires s.Valid()
    ensures Run(s, n).state.mem == s.mem
    decreases n
  {
    if n > 0 {
      StepKeepsMemory(s);
      RunKeepsMemory(Step(s).state, n - 1);
    }
  }

  /** A valid COND stays valid over any run. */
  lemma {:induction false} RunKeepsFlag(s: State, n: nat)
    requires s.Valid() && IsFlag(s.reg[R_COND])
    ensures IsFlag(Run(s, n).state.reg[R_COND])
    decreases n
  {
    if n > 0 {
      StepKeepsFlag(s);
      RunKeepsFlag(Step(s).state, n - 1);
    }
  }

  /** `ADD R0, R1, #5` (0x1065) with R1 = 10 leaves R0 = 15 and FL_POS. */
  lemma AddImmediateExample(s: State)
    requires s.Valid() && InMemory(s.reg[R_PC]) && Fetched(s) == 0x1065 && s.reg[R_R1] == 10
    ensures Step(s).state.reg[R_R0] == 15 && Step(s).state.reg[R_COND] == FL_POS
  {
    AddStep(s);
  }

  /** `ADD R0, R1, #-1` (0x107F) with R1 = 0 leaves R0 = 0x001F and FL_POS,
      not 0xFFFF and FL_NEG as the instruction set means, because the imm5
      field is never sign-extended (lc3.cpp:67, 120). */
  lemma AddMinusOneExample(s: State)
    requires s.Valid() && InMemory(s.reg[R_PC]) && Fetched(s) == 0x107F && s.reg[R_R1] == 0
    ensures Step(s).state.reg[R_R0] == 0x001F && Step(s).state.reg[R_COND] == FL_POS
  {
    AddStep(s);
  }

  /** `LDI R2, #2` (0xA402) at 0x3000, with memory[0x3003] = a and
      memory[a] = 42, leaves R2 = 42 and FL_POS. */
  lemma LoadIndirectExample(s: State, a: Word)
    requires s.Valid() && s.reg[R_PC] == 0x3000 && s.mem[0x3000] == 0xA402
    requires s.mem[0x3003] == a && MemRead(s.mem, a) == Read(42)
    ensures Step(s).outcome == Executed
    ensures Step(s).state.reg[R_R2] == 42 && Step(s).state.reg[R_COND] == FL_POS
  {
    LoadIndirectStep(s);
  }

  /** A smoke test of the start-up state with NO program image loaded (the
      loader at lc3.cpp:93 is not modelled, and a real run never starts
      here): memory is all zero, and the word 0 is a BR whose mask is
      empty, so the first step only advances the program counter. */
  lemma InitialStep()
    ensures Step(Initial()).outcome == Executed
    ensures Step(Initial()).state == Initial().(reg := Initial().reg[R_PC := PC_START + 1])
  {
  }
}
