/** The machine state of the LC-3 virtual machine as a value, and one
    fetch-decode-execute step as a function of it (lc3.cpp:60-83, 101-233).
    The class in module Machine updates arrays in place and is proved to
    agree with these functions. */
module Semantics {
  import opened Bits
  import opened Isa

  /** The register file `reg[R_COUNT]` (lc3.cpp:62) and the memory array
      `memeory[UINT16_MAX]` (lc3.cpp:60). */
  datatype State = State(reg: seq<Word>, mem: seq<Word>) {
    predicate Valid() {
      |reg| == R_COUNT && |mem| == MEMORY_SIZE
    }
  }

  /** How a step ends.
      - Executed: a handler written out in the source ran to completion.
      - Unwritten: the opcode's handler is a placeholder in the source
        (lc3.cpp:179-231), so the step after the fetch is not defined.
      - OutOfRange: the step would read address 0xFFFF, which lies beyond
        the 65535-word memory array (undefined behaviour in the source). */
  datatype Outcome = Executed | Unwritten(opcode: Word) | OutOfRange(address: Word)

  /** The state a step leaves and how it ended. On Unwritten and OutOfRange
      the state is the one reached just before the undefined part. */
  datatype Transition = Transition(state: State, outcome: Outcome)

  /** The result of reading one memory word. */
  datatype Access = Read(value: Word) | Fault(address: Word)

  /** The machine as `main` leaves it before its run loop when no program
      image is loaded: the global arrays are zero-initialised and the
      program counter is set to PC_START (lc3.cpp:60-62, 98-99). Loading an
      image (lc3.cpp:93) is not modelled. */
  function Initial(): (s: State)
    ensures s.Valid()
    ensures s.reg[R_PC] == PC_START
    ensures forall i :: 0 <= i < R_COUNT && i != R_PC ==> s.reg[i] == 0
    ensures forall a :: 0 <= a < MEMORY_SIZE ==> s.mem[a] == 0
  {
    State(seq(R_COUNT, i => if i == R_PC then PC_START else 0), seq(MEMORY_SIZE, _ => 0))
  }

  /** `mem_read`, which the file calls but never defines: a plain read of the
      memory array, which fails for the one address the array lacks. */
  function MemRead(mem: seq<Word>, address: Word): (a: Access)
    requires |mem| == MEMORY_SIZE
    ensures a.Read? <==> address != 0xFFFF
    ensures a.Read? ==> a.value == mem[address]
    ensures a.Fault? ==> a.address == address
  {
    if InMemory(address) then Read(mem[address]) else Fault(address)
  }

  /** The flag `update_flags` derives from a value (lc3.cpp:76-82). */
  function FlagOf(w: Word): (c: Word)
    ensures IsFlag(c)
    ensures c == FL_ZRO <==> w == 0
    ensures c == FL_NEG <==> w >= 0x8000
    ensures c == FL_POS <==> 0 < w < 0x8000
  {
    if w == 0 then FL_ZRO else if w >> 15 != 0 then FL_NEG else FL_POS
  }

  /** `update_flags(r)` (lc3.cpp:74-83): COND receives the flag of `reg[r]`;
      no other register changes. */
  function UpdateFlags(reg: seq<Word>, r: nat): (reg': seq<Word>)
    requires |reg| == R_COUNT && r < R_COUNT
    ensures |reg'| == R_COUNT
    ensures reg'[R_COND] == FlagOf(reg[r])
    ensures forall i :: 0 <= i < R_COUNT && i != R_COND ==> reg'[i] == reg[i]
  {
    reg[R_COND := FlagOf(reg[r])]
  }

  /** `mem_read(reg[R_PC]++)` (lc3.cpp:105): the word at the old program
      counter, and the state with the program counter advanced by one,
      wrapping. The post-increment happens before the read. */
  function Fetch(s: State): (r: (Access, State))
    requires s.Valid()
    ensures r.1.Valid() && r.1.mem == s.mem
    ensures r.1.reg[R_PC] == WrappingAdd(s.reg[R_PC], 1)
    ensures forall i :: 0 <= i < R_COUNT && i != R_PC ==> r.1.reg[i] == s.reg[i]
    ensures r.0 == MemRead(s.mem, s.reg[R_PC])
  {
    (MemRead(s.mem, s.reg[R_PC]), s.(reg := s.reg[R_PC := WrappingAdd(s.reg[R_PC], 1)]))
  }

  /** The second operand of ADD and AND: the `imm5` field passed through
      `sign_extended` in immediate mode, register `r2` otherwise
      (lc3.cpp:118-127, 141-150). */
  function Operand(instr: Word, reg: seq<Word>): (r: Word)
    requires |reg| == R_COUNT
    ensures ImmFlag(instr) ==> r <= 0x1F
    ensures !ImmFlag(instr) ==> r == reg[Src2(instr)]
  {
    if ImmFlag(instr) then Imm5(instr) else reg[Src2(instr)]
  }

  /** The effective pc-relative address of BR and LDI: the (already
      incremented) program counter plus `sign_extended(instr & 0x1FF, 9)`,
      wrapping (lc3.cpp:172-175, 195-197). */
  function PcRelative(instr: Word, pc: Word): (r: Word)
    ensures r == WrappingAdd(pc, BitAnd(instr, 0x1FF))
  {
    PcOffset9IsRawField(instr);
    WrappingAdd(pc, PcOffset9(instr))
  }

  /** Writes `value` into register `r0` and then runs `update_flags(r0)`. */
  function SetAndFlag(s: State, r0: nat, value: Word): (t: Transition)
    requires s.Valid() && r0 < R_COUNT
    ensures t.outcome == Executed && t.state.Valid() && t.state.mem == s.mem
    ensures r0 != R_COND ==> t.state.reg[r0] == value
    ensures t.state.reg[R_COND] == FlagOf(value)
    ensures forall i :: 0 <= i < R_COUNT && i != r0 && i != R_COND ==> t.state.reg[i] == s.reg[i]
  {
    Transition(s.(reg := UpdateFlags(s.reg[r0 := value], r0)), Executed)
  }

  /** `case OP_ADD` (lc3.cpp:110-131). */
  function Add(instr: Word, s: State): (t: Transition)
    requires s.Valid()
    ensures t.outcome == Executed && t.state.Valid() && t.state.mem == s.mem
  {
    SetAndFlag(s, Dst(instr), WrappingAdd(s.reg[Src1(instr)], Operand(instr, s.reg)))
  }

  /** `case OP_AND` (lc3.cpp:133-154). */
  function And(instr: Word, s: State): (t: Transition)
    requires s.Valid()
    ensures t.outcome == Executed && t.state.Valid() && t.state.mem == s.mem
  {
    SetAndFlag(s, Dst(instr), BitAnd(s.reg[Src1(instr)], Operand(instr, s.reg)))
  }

  /** `case OP_NOT` (lc3.cpp:156-166). lc3.cpp:160 redeclares `r0` where the
      source register `r1` (bits 8-6) is meant, which does not compile; this
      is the evident intent, reg[r0] = ~reg[r1]. */
  function Not(instr: Word, s: State): (t: Transition)
    requires s.Valid()
    ensures t.outcome == Executed && t.state.Valid() && t.state.mem == s.mem
  {
    SetAndFlag(s, Dst(instr), Complement(s.reg[Src1(instr)]))
  }

  /** `case OP_BR` (lc3.cpp:168-177). */
  function Branch(instr: Word, s: State): (t: Transition)
    requires s.Valid()
    ensures t.outcome == Executed && t.state.Valid() && t.state.mem == s.mem
    ensures forall i :: 0 <= i < R_COUNT && i != R_PC ==> t.state.reg[i] == s.reg[i]
  {
    if BitAnd(CondMask(instr), s.reg[R_COND]) != 0 then
      Transition(s.(reg := s.reg[R_PC := PcRelative(instr, s.reg[R_PC])]), Executed)
    else
      Transition(s, Executed)
  }

  /** `case OP_LDI` (lc3.cpp:191-201): two reads, then the flags. */
  function LoadIndirect(instr: Word, s: State): (t: Transition)
    requires s.Valid()
    ensures t.state.Valid() && t.state.mem == s.mem
    ensures t.outcome.Executed? || t.outcome.OutOfRange?
    ensures t.outcome.OutOfRange? ==> t.state == s && t.outcome.address == 0xFFFF
    ensures forall i :: 0 <= i < R_COUNT && i != Dst(instr) && i != R_COND ==>
      t.state.reg[i] == s.reg[i]
  {
    match MemRead(s.mem, PcRelative(instr, s.reg[R_PC]))
    case Fault(a) => Transition(s, OutOfRange(a))
    case Read(target) =>
      match MemRead(s.mem, target)
      case Fault(a) => Transition(s, OutOfRange(a))
      case Read(value) => SetAndFlag(s, Dst(instr), value)
  }

  /** The `switch (op)` of lc3.cpp:108-232, run on the state after the fetch. */
  function Execute(instr: Word, s: State): (t: Transition)
    requires s.Valid()
    ensures t.state.Valid() && t.state.mem == s.mem
    ensures t.outcome.Unwritten? <==> Opcode(instr) !in {OP_ADD, OP_AND, OP_NOT, OP_BR, OP_LDI}
    ensures t.outcome.Unwritten? ==> t.state == s && t.outcome.opcode == Opcode(instr)
  {
    var op := Opcode(instr);
    if op == OP_ADD then Add(instr, s)
    else if op == OP_AND then And(instr, s)
    else if op == OP_NOT then Not(instr, s)
    else if op == OP_BR then Branch(instr, s)
    else if op == OP_LDI then LoadIndirect(instr, s)
    else Transition(s, Unwritten(op))
  }

  /** One iteration of the `while (running)` loop (lc3.cpp:102-233). */
  function Step(s: State): (t: Transition)
    requires s.Valid()
    ensures t.state.Valid()
  {
    var (fetched, s1) := Fetch(s);
    match fetched
    case Fault(a) => Transition(s1, OutOfRange(a))
    case Read(instr) => Execute(instr, s1)
  }

  /** The end of a bounded run: the final state, the number of steps taken
      and how the last one ended. */
  datatype RunResult = RunResult(state: State, steps: nat, outcome: Outcome)

  /** At most `n` iterations of the run loop, stopping early at the first
      step that is not Executed. */
  function Run(s: State, n: nat): (r: RunResult)
    requires s.Valid()
    ensures r.state.Valid()
    ensures r.steps <= n
    ensures r.outcome.Executed? ==> r.steps == n
    ensures n > 0 ==> r.steps > 0
    decreases n
  {
    if n == 0 then RunResult(s, 0, Executed)
    else
      var t := Step(s);
      if !t.outcome.Executed? then RunResult(t.state, 1, t.outcome)
      else
        var rest := Run(t.state, n - 1);
        rest.(steps := rest.steps + 1)
  }
}
