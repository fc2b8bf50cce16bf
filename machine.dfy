/** The LC-3 machine as the source keeps it: a register array and a memory
    array updated in place by `update_flags` and by each iteration of the
    run loop in `main` (lc3.cpp:60-62, 74-83, 96-233). Each method is proved
    to agree with the functions of module Semantics. */
module Machine {
  import opened Bits
  import opened Isa
  import opened Semantics

  class Cpu {
    /** `reg[R_COUNT]` (lc3.cpp:62). */
    const reg: array<Word>
    /** `memeory[UINT16_MAX]` (lc3.cpp:60). */
    const memory: array<Word>

    ghost predicate Valid() {
      reg.Length == R_COUNT && memory.Length == MEMORY_SIZE
    }

    /** The machine state as a value. */
    ghost function Snapshot(): (s: State)
      reads reg, memory
    {
      State(reg[..], memory[..])
    }

    /** Zero-initialised globals, then `reg[R_PC] = PC_START`
        (lc3.cpp:60-62, 98-99). */
    constructor ()
      ensures Valid() && fresh(reg) && fresh(memory)
      ensures Snapshot() == Semantics.Initial()
    {
      reg := new Word[R_COUNT](_ => 0);
      memory := new Word[MEMORY_SIZE](_ => 0);
      new;
      reg[R_PC] := PC_START;
    }

    /** `mem_read`, called at lc3.cpp:105 and 197 but never defined: a plain
        read of the memory array, which has no cell at 0xFFFF. */
    method MemRead(address: Word) returns (value: Word)
      requires Valid() && InMemory(address)
      ensures Semantics.MemRead(memory[..], address) == Read(value)
    {
      var contents := memory[..];
      value := contents[address];
    }

    /** `update_flags(r)` (lc3.cpp:74-83). */
    method UpdateFlags(r: nat)
      requires Valid() && r < R_COUNT
      modifies reg
      ensures reg[..] == Semantics.UpdateFlags(old(reg[..]), r)
    {
      if reg[r] == 0 {
        reg[R_COND] := FL_ZRO;
      } else if reg[r] >> 15 != 0 {
        reg[R_COND] := FL_NEG;
      } else {
        reg[R_COND] := FL_POS;
      }
    }

    /** One iteration of the `while (running)` loop (lc3.cpp:104-232):
        fetch with post-increment, then the `switch (op)`. */
    method Step() returns (outcome: Outcome)
      requires Valid()
      modifies reg
      ensures Semantics.Step(old(Snapshot())) == Transition(Snapshot(), outcome)
    {
      var pc := reg[R_PC];
      reg[R_PC] := WrappingAdd(pc, 1);
      if !InMemory(pc) {
        return OutOfRange(pc);
      }
      var instr := MemRead(pc);
      var op := Opcode(instr);
      if op == OP_ADD {
        outcome := Add(instr);
      } else if op == OP_AND {
        outcome := And(instr);
      } else if op == OP_NOT {
        outcome := Not(instr);
      } else if op == OP_BR {
        outcome := Branch(instr);
      } else if op == OP_LDI {
        outcome := LoadIndirect(instr);
      } else {
        outcome := Unwritten(op);
      }
    }

    /** `case OP_ADD` (lc3.cpp:110-131). */
    method Add(instr: Word) returns (outcome: Outcome)
      requires Valid() && Opcode(instr) == OP_ADD
      modifies reg
      ensures Semantics.Add(instr, old(Snapshot())) == Transition(Snapshot(), outcome)
    {
      var r0, r1 := Dst(instr), Src1(instr);
      if ImmFlag(instr) {
        var imm5 := Imm5(instr);
        reg[r0] := WrappingAdd(reg[r1], imm5);
      } else {
        var r2 := Src2(instr);
        reg[r0] := WrappingAdd(reg[r1], reg[r2]);
      }
      UpdateFlags(r0);
      outcome := Executed;
    }

    /** `case OP_AND` (lc3.cpp:133-154). */
    method And(instr: Word) returns (outcome: Outcome)
      requires Valid() && Opcode(instr) == OP_AND
      modifies reg
      ensures Semantics.And(instr, old(Snapshot())) == Transition(Snapshot(), outcome)
    {
      var r0, r1 := Dst(instr), Src1(instr);
      if ImmFlag(instr) {
        var imm5 := Imm5(instr);
        reg[r0] := BitAnd(reg[r1], imm5);
      } else {
        var r2 := Src2(instr);
        reg[r0] := BitAnd(reg[r1], reg[r2]);
      }
      UpdateFlags(r0);
      outcome := Executed;
    }

    /** `case OP_NOT` (lc3.cpp:156-166). lc3.cpp:160 declares `r0` a second
        time where the source register `r1` (bits 8-6) is meant, which does
        not compile; this is the evident intent. */
    method Not(instr: Word) returns (outcome: Outcome)
      requires Valid() && Opcode(instr) == OP_NOT
      modifies reg
      ensures Semantics.Not(instr, old(Snapshot())) == Transition(Snapshot(), outcome)
    {
      var r0, r1 := Dst(instr), Src1(instr);
      reg[r0] := Complement(reg[r1]);
      UpdateFlags(r0);
      outcome := Executed;
    }

    /** `case OP_BR` (lc3.cpp:168-177). */
    method Branch(instr: Word) returns (outcome: Outcome)
      requires Valid() && Opcode(instr) == OP_BR
      modifies reg
      ensures Semantics.Branch(instr, old(Snapshot())) == Transition(Snapshot(), outcome)
    {
      var condFlag := CondMask(instr);
      var pcOffset := PcOffset9(instr);
      if BitAnd(condFlag, reg[R_COND]) != 0 {
        reg[R_PC] := WrappingAdd(reg[R_PC], pcOffset);
      }
      outcome := Executed;
    }

    /** `case OP_LDI` (lc3.cpp:191-201). */
    method LoadIndirect(instr: Word) returns (outcome: Outcome)
      requires Valid() && Opcode(instr) == OP_LDI
      modifies reg
      ensures Semantics.LoadIndirect(instr, old(Snapshot())) == Transition(Snapshot(), outcome)
    {
      var r0 := Dst(instr);
      var pcOffset := PcOffset9(instr);
      var slot := WrappingAdd(reg[R_PC], pcOffset);
      if !InMemory(slot) {
        return OutOfRange(slot);
      }
      var address := MemRead(slot);
      if !InMemory(address) {
        return OutOfRange(address);
      }
      reg[r0] := MemRead(address);
      UpdateFlags(r0);
      outcome := Executed;
    }

    /** At most `n` iterations of the run loop, stopping at the first step
        that is not Executed. */
    method Run(n: nat) returns (steps: nat, outcome: Outcome)
      requires Valid()
      modifies reg
      ensures Semantics.Run(old(Snapshot()), n) == RunResult(Snapshot(), steps, outcome)
    {
      steps, outcome := 0, Executed;
      while steps < n && outcome.Executed?
        invariant steps <= n
        invariant outcome.Executed? ==>
          var rest := Semantics.Run(Snapshot(), n - steps);
          Semantics.Run(old(Snapshot()), n) == rest.(steps := rest.steps + steps)
        invariant !outcome.Executed? ==>
          Semantics.Run(old(Snapshot()), n) == RunResult(Snapshot(), steps, outcome)
      {
        outcome := Step();
        steps := steps + 1;
      }
    }
  }
}
