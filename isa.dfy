/** Register names, opcodes, condition flags and instruction fields of the
    LC-3 machine (lc3.cpp:15-62, 98, 105-106, 112-116, 125, 158-160, 170,
    193). */
module Isa {
  import opened Bits

  // Register indices into `reg` (lc3.cpp:15-28).
  const R_R0: nat := 0
  const R_R1: nat := 1
  const R_R2: nat := 2
  const R_R3: nat := 3
  const R_R4: nat := 4
  const R_R5: nat := 5
  const R_R6: nat := 6
  const R_R7: nat := 7
  const R_PC: nat := 8
  const R_COND: nat := 9
  const R_COUNT: nat := 10

  // Opcodes, bits 15-12 of an instruction (lc3.cpp:31-49).
  const OP_BR: Word := 0
  const OP_ADD: Word := 1
  const OP_LD: Word := 2
  const OP_ST: Word := 3
  const OP_JSR: Word := 4
  const OP_AND: Word := 5
  const OP_LDR: Word := 6
  const OP_STR: Word := 7
  const OP_RTI: Word := 8
  const OP_NOT: Word := 9
  const OP_LDI: Word := 10
  const OP_STI: Word := 11
  const OP_JMP: Word := 12
  const OP_RES: Word := 13
  const OP_LEA: Word := 14
  const OP_TRAP: Word := 15

  // Condition flags held in `reg[R_COND]` (lc3.cpp:51-56).
  const FL_POS: Word := 1
  const FL_ZRO: Word := 2
  const FL_NEG: Word := 4

  /** The memory array is declared `memeory[UINT16_MAX]` (lc3.cpp:60): it has
      65535 words, so address 0xFFFF lies outside it. */
  const MEMORY_SIZE: nat := 0xFFFF

  /** The program counter's starting value (lc3.cpp:98). */
  const PC_START: Word := 0x3000

  /** `c` is one of the three condition flags. */
  predicate IsFlag(c: Word) {
    c == FL_POS || c == FL_ZRO || c == FL_NEG
  }

  /** `address` names a cell of the 65535-word memory array (0 .. MEMORY_SIZE - 1). */
  predicate InMemory(address: Word) {
    address < 0xFFFF
  }

  /** `instr >> 12` (lc3.cpp:106): always one of the sixteen opcodes. */
  function Opcode(instr: Word): (op: Word)
    ensures op <= OP_TRAP
    ensures op == OP_TRAP <==> instr >= 0xF000
  {
    instr >> 12
  }

  /** Bits 11-9: the destination register `r0` (lc3.cpp:112, 135, 158, 193). */
  function Dst(instr: Word): (r: nat)
    ensures r <= R_R7
  {
    ((instr >> 9) & 0x7) as nat
  }

  /** Bits 8-6: the first source register `r1` (lc3.cpp:114, 137, 160). */
  function Src1(instr: Word): (r: nat)
    ensures r <= R_R7
  {
    ((instr >> 6) & 0x7) as nat
  }

  /** Bits 2-0: the second source register `r2` (lc3.cpp:125, 148). */
  function Src2(instr: Word): (r: nat)
    ensures r <= R_R7
  {
    (instr & 0x7) as nat
  }

  /** Bit 5: the immediate-mode flag `imm_flag` (lc3.cpp:116, 139). */
  predicate ImmFlag(instr: Word)
    ensures ImmFlag(instr) <==> instr & 0x20 != 0
  {
    (instr >> 5) & 0x1 == 1
  }

  /** `sign_extended(instr & 0x1F, 5)`: the `imm5` operand of ADD and AND
      (lc3.cpp:120, 143). */
  function Imm5(instr: Word): (r: Word)
    // As written, never negative: at most 31.
    ensures r <= 0x1F
  {
    SignExtended(instr & 0x1F, 5)
  }

  /** `sign_extended(instr & 0x1FF, 9)`: the `pc_offset` of BR and LDI
      (lc3.cpp:172, 195). */
  function PcOffset9(instr: Word): (r: Word)
    // As written, never negative: at most 511.
    ensures r <= 0x1FF
  {
    SignExtended(instr & 0x1FF, 9)
  }

  /** As written, `Imm5` is the raw field: 0 .. 31, never negative. */
  lemma Imm5IsRawField(instr: Word)
    ensures Imm5(instr) == BitAnd(instr, 0x1F)
  {
    SignExtendedCallSitesAreIdentity(instr);
  }

  /** As written, `PcOffset9` is the raw field: 0 .. 511, never negative. */
  lemma PcOffset9IsRawField(instr: Word)
    ensures PcOffset9(instr) == BitAnd(instr, 0x1FF)
  {
    SignExtendedCallSitesAreIdentity(instr);
  }

  /** Bits 11-9 of a branch: the `cond_flag` mask (lc3.cpp:170). */
  function CondMask(instr: Word): (m: Word)
    ensures m <= 0x7
  {
    (instr >> 9) & 0x7
  }
}
