/** When `run_program` completes and when it stops. A run stops at the first
    line that does not decode, the first instruction whose operands leave
    the memory or whose opcode is unknown, or a last cycle that runs off the
    end of the program. None of this depends on aliasing or on the memory's
    contents: only on the program text, the scale factor, the operand size
    and the memory's length. */
module Outcome {
  import opened Results
  import opened Faults
  import opened Isa
  import opened Memory
  import opened Simulator
  import opened Scaling
  import DivMod

  /** Which error a failing cycle reports. The read loop runs over every
      lane before the arithmetic loop, which runs over every lane before the
      write loop, so an operand range outside the memory in any lane is
      reported before an unknown opcode in any lane, which is reported
      before an output range outside the memory in any lane; within a phase,
      the lowest failing lane is reported. */
  lemma ExecuteFirstError(m: Machine, instrs: seq<Instruction>)
    ensures forall i ::
              (0 <= i < |instrs| && !Readable(|m.memory|, m.cfg.operandSize, instrs[i])
               && forall j :: 0 <= j < i ==> Readable(|m.memory|, m.cfg.operandSize, instrs[j])) ==>
              Execute(m, instrs) == Err(BadInputOperands(instrs[i].iptr1, instrs[i].iptr2))
    ensures forall i ::
              (&& 0 <= i < |instrs| && instrs[i].opcode.Undefined?
               && (forall j :: 0 <= j < i ==> !instrs[j].opcode.Undefined?)
               && forall j :: 0 <= j < |instrs| ==> Readable(|m.memory|, m.cfg.operandSize, instrs[j])) ==>
              Execute(m, instrs) == Err(UndefinedInstruction(instrs[i].opcode.mnemonic))
    ensures forall i ::
              (&& 0 <= i < |instrs| && !InRange(|m.memory|, m.cfg.operandSize, instrs[i].optr)
               && (forall j :: 0 <= j < i ==> InRange(|m.memory|, m.cfg.operandSize, instrs[j].optr))
               && forall j :: 0 <= j < |instrs| ==> Executable(|m.memory|, m.cfg.operandSize, instrs[j])) ==>
              Execute(m, instrs) == Err(BadOutputOperand(instrs[i].optr))
  {
    hide ReadLane, ReadLanes, ComputeLanes, WriteLanes, Arithmetic.ArithmeticPhase;
    var n := m.cfg.operandSize;
    ReadLanesFirstError(m, instrs);
    if forall j :: 0 <= j < |instrs| ==> Readable(|m.memory|, n, instrs[j]) {
      var staged := ReadLanes(m, instrs).value;
      assert forall j :: 0 <= j < |instrs| ==> staged[j].instr == instrs[j];
      ComputeLanesFirstError(staged);
      if forall j :: 0 <= j < |instrs| ==> Executable(|m.memory|, n, instrs[j]) {
        var lanes := Plan(m, instrs).value;
        assert forall j :: 0 <= j < |instrs| ==> lanes[j].optr == instrs[j].optr;
        WriteLanesFirstError(m, lanes);
      }
    }
  }

  /** A cycle reports a decode failure in its window before any lane reads
      the memory: the first line that does not decode or, when the window
      runs past the end of the program, the first missing line. */
  lemma CycleFirstError(m: Machine)
    ensures forall i {:trigger Decode(m.program[i])} ::
              (m.pc <= i < |m.program| && i < m.pc + m.cfg.scaleFactor && Decode(m.program[i]).Err?
               && forall j {:trigger Decode(m.program[j])} :: m.pc <= j < i ==> Decode(m.program[j]).Ok?) ==>
              Cycle(m) == Err(Decode(m.program[i]).error)
    ensures (&& m.pc <= |m.program| < m.pc + m.cfg.scaleFactor
             && forall i {:trigger Decode(m.program[i])} :: m.pc <= i < |m.program| ==> Decode(m.program[i]).Ok?) ==>
              Cycle(m) == Err(MissingInstruction(|m.program|))
    ensures DecodeLanes(m).Ok? ==> Cycle(m).Err? ==> Cycle(m) == Execute(m, DecodeLanes(m).value)
  {
    hide Decode, DecodeAll, DecodeLanes, Execute;
    DecodeLanesFirstError(m);
    DecodeLanesMissing(m);
  }

  /** A loop that completes from `pc` decoded every line from `pc` on. */
  lemma {:induction false} CyclesNeedDecode(m: Machine)
    requires m.pc <= |m.program|
    ensures Cycles(m).Ok? ==>
              forall i {:trigger Decode(m.program[i])} :: m.pc <= i < |m.program| ==> Decode(m.program[i]).Ok?
    decreases |m.program| - m.pc
  {
    hide Decode, DecodeAll, DecodeLanes, Execute, Cycle, Cycles;
    CyclesNext(m);
    if m.pc < |m.program| && Cycle(m).Ok? {
      DecodeLanesLines(m);
      CyclesNeedDecode(Cycle(m).value);
    }
  }

  /** A run that completes decoded every line of the program. */
  lemma RunNeedsDecode(m: Machine)
    ensures Run(m).Ok? ==> DecodeAll(m.program).Ok?
  {
    hide Decode, DecodeAll, Cycles;
    CyclesNeedDecode(m.(pc := 0));
  }

  /** The decoded-instruction loop completes exactly when the instructions
      fill whole cycles and every one of them is admissible. */
  lemma {:induction false} LockstepSucceeds(m: Machine, rest: seq<Instruction>)
    ensures Lockstep(m, rest).Some? <==>
              && |rest| % m.cfg.scaleFactor == 0
              && forall i :: 0 <= i < |rest| ==> Admissible(|m.memory|, m.cfg.operandSize, rest[i])
    decreases |rest|
  {
    hide Execute, Lockstep;
    var k := m.cfg.scaleFactor;
    LockstepStep(m, rest);
    if |rest| == 0 {
    } else if |rest| < k {
      DivMod.DivUnique(|rest|, k, 0, |rest|);
    } else {
      DivMod.DivStep(|rest|, k);
      var group := rest[..k];
      var tail := rest[k..];
      assert forall i :: 0 <= i < k ==> group[i] == rest[i];
      assert forall i :: k <= i < |rest| ==> tail[i - k] == rest[i];
      if Execute(m, group).Ok? {
        var m' := Execute(m, group).value;
        LockstepSucceeds(m'.(cycles := m'.cycles + 1), tail);
      }
    }
  }

  /** From any program counter of a program that decodes, the cycle loop
      completes exactly when the remaining lines fill whole cycles and every
      remaining instruction is admissible. */
  lemma CyclesOutcome(m: Machine, d: seq<Instruction>)
    requires DecodeAll(m.program) == Ok(d)
    requires m.pc <= |m.program|
    ensures Cycles(m).Ok? <==>
              && (|m.program| - m.pc) % m.cfg.scaleFactor == 0
              && forall i :: m.pc <= i < |d| ==> Admissible(|m.memory|, m.cfg.operandSize, d[i])
  {
    hide Decode, DecodeAll, Execute, Cycles, Lockstep;
    var rest := d[m.pc..];
    assert forall i :: m.pc <= i < |d| ==> rest[i - m.pc] == d[i];
    CyclesAreLockstep(m, d);
    LockstepSucceeds(m, rest);
  }

  /** For a program that decodes, the run completes exactly when the
      program fills whole cycles and every instruction has its operands in
      memory and a known opcode, whatever the aliasing between lanes. */
  lemma RunOutcome(m: Machine, d: seq<Instruction>)
    requires DecodeAll(m.program) == Ok(d)
    ensures Run(m).Ok? <==>
              && |m.program| % m.cfg.scaleFactor == 0
              && forall i :: 0 <= i < |d| ==> Admissible(|m.memory|, m.cfg.operandSize, d[i])
  {
    hide Decode, DecodeAll, Execute, Cycles, Lockstep;
    CyclesOutcome(m.(pc := 0), d);
  }

  /** `run_program` completes exactly when every line decodes, the program
      fills whole cycles, and every instruction is admissible; otherwise it
      stops with an error. */
  lemma RunSucceeds(m: Machine)
    ensures Run(m).Ok? <==>
              && DecodeAll(m.program).Ok?
              && |m.program| % m.cfg.scaleFactor == 0
              && forall i :: 0 <= i < |m.program| ==>
                   Admissible(|m.memory|, m.cfg.operandSize, DecodeAll(m.program).value[i])
  {
    hide Decode, DecodeAll, Execute, Cycles, Lockstep, Run;
    RunNeedsDecode(m);
    if DecodeAll(m.program).Ok? {
      RunOutcome(m, DecodeAll(m.program).value);
    }
  }
}
