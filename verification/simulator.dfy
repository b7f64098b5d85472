/** The cycle engine of the functional simulator. A machine holds the data
    memory, the program text, the program counter and the cycle counter; a
    run repeats cycles until the program counter reaches the end of the
    program. Each cycle decodes `scaleFactor` consecutive lines (one per
    lane), then runs the read phase for every lane, then the arithmetic
    phase for every lane, then the write phase for every lane. */
module Simulator {
  import opened Results
  import opened Faults
  import opened Isa
  import opened Memory
  import opened Arithmetic
  import DivMod

  /** A scale factor: how many lanes (instructions) one cycle processes. */
  type Lanes = n: int | n >= 1 witness 1

  /** Construction-time parameters. `mem_size` is the length of the memory. */
  datatype Config = Config(scaleFactor: Lanes, operandSize: nat)

  datatype Machine = Machine(cfg: Config, memory: seq<Cell>, program: seq<string>, pc: nat, cycles: nat)

  /** `FunctionalSimulator(scale_factor, mem_size, operand_size)`: a zeroed
      memory, an empty program, both counters at zero. */
  function New(scaleFactor: Lanes, memSize: nat, operandSize: nat): (m: Machine)
    ensures |m.memory| == memSize && forall i :: 0 <= i < memSize ==> m.memory[i] == 0
    ensures m.cfg == Config(scaleFactor, operandSize)
    ensures m.program == [] && m.pc == 0 && m.cycles == 0
  {
    Machine(Config(scaleFactor, operandSize), seq(memSize, _ => 0), [], 0, 0)
  }

  /** `set_memory`: replaces the memory image wholesale. */
  function SetMemory(m: Machine, image: seq<Cell>): (r: Machine)
    requires |image| == |m.memory|
    ensures r.memory == image
    ensures r.cfg == m.cfg && r.program == m.program && r.pc == m.pc && r.cycles == m.cycles
  {
    m.(memory := image)
  }

  /** `set_program`: installs the program text, which must fill whole cycles. */
  function SetProgram(m: Machine, code: seq<string>): (r: Result<Machine, SimError>)
    ensures r.Ok? <==> |code| % m.cfg.scaleFactor == 0
    ensures r.Ok? ==> r.value == m.(program := code)
    ensures r.Err? ==> r.error == ProgramSizeNotMultiple(|code|, m.cfg.scaleFactor)
  {
    if |code| % m.cfg.scaleFactor != 0 then Err(ProgramSizeNotMultiple(|code|, m.cfg.scaleFactor))
    else Ok(m.(program := code))
  }

  /** `reset`: clears the program counter and the cycle counter only. */
  function Reset(m: Machine): (r: Machine)
    ensures r.pc == 0 && r.cycles == 0
    ensures r.memory == m.memory && r.program == m.program && r.cfg == m.cfg
  {
    m.(pc := 0, cycles := 0)
  }

  /** `read_phase` for one lane: both input operands, copied out of memory,
      or a failure naming both pointers when either range leaves the memory. */
  function ReadPhase(m: Machine, ptr1: int, ptr2: int): (r: Result<(Operand, Operand), SimError>)
    ensures r.Ok? <==> InRange(|m.memory|, m.cfg.operandSize, ptr1) && InRange(|m.memory|, m.cfg.operandSize, ptr2)
    ensures r.Err? ==> r.error == BadInputOperands(ptr1, ptr2)
    ensures r.Ok? ==> |r.value.0| == |r.value.1| == m.cfg.operandSize
    ensures r.Ok? ==> forall k :: 0 <= k < m.cfg.operandSize ==>
                        r.value.0[k] == m.memory[ptr1 + k] && r.value.1[k] == m.memory[ptr2 + k]
  {
    var n := m.cfg.operandSize;
    var memSize := |m.memory|;
    if ptr1 < 0 || ptr1 > memSize - n || ptr2 < 0 || ptr2 > memSize - n then
      Err(BadInputOperands(ptr1, ptr2))
    else
      Ok((m.memory[ptr1..ptr1 + n], m.memory[ptr2..ptr2 + n]))
  }

  /** `write_phase` for one lane: stores the output operand and advances the
      program counter by one, or fails when the output range leaves the memory. */
  function WritePhase(m: Machine, ptr: int, output: Operand): (r: Result<Machine, SimError>)
    requires |output| == m.cfg.operandSize
    ensures r.Ok? <==> InRange(|m.memory|, m.cfg.operandSize, ptr)
    ensures r.Err? ==> r.error == BadOutputOperand(ptr)
    ensures r.Ok? ==> |r.value.memory| == |m.memory|
    ensures r.Ok? ==> forall j :: 0 <= j < |m.memory| ==>
                        r.value.memory[j] == if ptr <= j < ptr + |output| then output[j - ptr] else m.memory[j]
    ensures r.Ok? ==> r.value.pc == m.pc + 1
    ensures r.Ok? ==> r.value.cycles == m.cycles && r.value.cfg == m.cfg && r.value.program == m.program
  {
    if ptr < 0 || ptr > |m.memory| - m.cfg.operandSize then Err(BadOutputOperand(ptr))
    else Ok(m.(memory := Store(m.memory, ptr, output), pc := m.pc + 1))
  }

  /** A lane after the read phase. */
  datatype Staged = Staged(instr: Instruction, input1: Operand, input2: Operand)

  /** A lane after the arithmetic phase: where its output goes, and the output. */
  datatype Pending = Pending(optr: int, output: Operand)

  /** Decodes `lines` in order, stopping at the first line that fails. */
  function DecodeAll(lines: seq<string>): (r: Result<seq<Instruction>, SimError>)
    ensures r.Ok? <==> forall i {:trigger Decode(lines[i])} :: 0 <= i < |lines| ==> Decode(lines[i]).Ok?
    ensures r.Ok? ==> |r.value| == |lines|
                      && forall i {:trigger Decode(lines[i])} :: 0 <= i < |lines| ==> Decode(lines[i]) == Ok(r.value[i])
    decreases |lines|
  {
    hide Decode;
    if |lines| == 0 then Ok([])
    else
      var ins :- Decode(lines[0]);
      var rest :- DecodeAll(lines[1..]);
      assert forall i :: 1 <= i < |lines| ==> lines[1..][i - 1] == lines[i];
      Ok([ins] + rest)
  }

  /** A failing decode loop reports the error of its first failing line, and
      the first failing line decides the loop's error. */
  lemma {:induction false} DecodeAllFirstError(lines: seq<string>)
    ensures DecodeAll(lines).Err? ==>
              exists i {:trigger Decode(lines[i])} :: 0 <= i < |lines| && Decode(lines[i]) == Err(DecodeAll(lines).error)
                && forall j {:trigger Decode(lines[j])} :: 0 <= j < i ==> Decode(lines[j]).Ok?
    ensures forall i {:trigger Decode(lines[i])} ::
              (0 <= i < |lines| && Decode(lines[i]).Err?
               && forall j {:trigger Decode(lines[j])} :: 0 <= j < i ==> Decode(lines[j]).Ok?) ==>
              DecodeAll(lines) == Err(Decode(lines[i]).error)
    decreases |lines|
  {
    hide Decode;
    if |lines| > 0 && Decode(lines[0]).Ok? {
      DecodeAllFirstError(lines[1..]);
      if DecodeAll(lines).Err? {
        var i :| 0 <= i < |lines| - 1 && Decode(lines[1..][i]) == Err(DecodeAll(lines).error)
                 && forall j :: 0 <= j < i ==> Decode(lines[1..][j]).Ok?;
        assert lines[1..][i] == lines[i + 1];
        assert forall j :: 1 <= j < i + 1 ==> lines[1..][j - 1] == lines[j];
      }
    }
    forall i | 0 <= i < |lines| && Decode(lines[i]).Err? && forall j :: 0 <= j < i ==> Decode(lines[j]).Ok?
      ensures DecodeAll(lines) == Err(Decode(lines[i]).error)
    {
      DecodeAllErrorAt(lines, i);
    }
  }

  /** The decode loop's error when line `i` is the first that fails. */
  lemma {:induction false} DecodeAllErrorAt(lines: seq<string>, i: nat)
    requires i < |lines| && Decode(lines[i]).Err?
    requires forall j {:trigger Decode(lines[j])} :: 0 <= j < i ==> Decode(lines[j]).Ok?
    ensures DecodeAll(lines) == Err(Decode(lines[i]).error)
    decreases i
  {
    hide Decode;
    if i > 0 {
      var tail := lines[1..];
      assert tail[i - 1] == lines[i];
      forall j | 0 <= j < i - 1
        ensures Decode(tail[j]).Ok?
      {
        assert tail[j] == lines[j + 1];
      }
      DecodeAllErrorAt(tail, i - 1);
    }
  }

  /** The decode loop of one cycle: lane `i` decodes line `pc + i`. The lines
      that exist are decoded first; a lane past the end of the program is
      Python's IndexError on `program[pc + i]`. */
  function DecodeLanes(m: Machine): (r: Result<seq<Instruction>, SimError>)
    ensures m.pc + m.cfg.scaleFactor <= |m.program| ==> r == DecodeAll(m.program[m.pc..m.pc + m.cfg.scaleFactor])
    ensures m.pc + m.cfg.scaleFactor > |m.program| ==> r.Err?
  {
    hide Decode, DecodeAll;
    var k := m.cfg.scaleFactor;
    if m.pc + k <= |m.program| then DecodeAll(m.program[m.pc..m.pc + k])
    else
      var present := if m.pc <= |m.program| then m.program[m.pc..] else [];
      match DecodeAll(present)
      case Err(e) => Err(e)
      case Ok(_) => Err(MissingInstruction(if m.pc <= |m.program| then |m.program| else m.pc))
  }

  /** Lane `i` of a cycle holds the decoded line `pc + i`; the cycle decodes
      exactly when all `k` lines exist and decode. */
  lemma DecodeLanesLines(m: Machine)
    ensures DecodeLanes(m).Ok? <==>
              && m.pc + m.cfg.scaleFactor <= |m.program|
              && forall i {:trigger Decode(m.program[i])} :: m.pc <= i < m.pc + m.cfg.scaleFactor ==> Decode(m.program[i]).Ok?
    ensures DecodeLanes(m).Ok? ==>
              |DecodeLanes(m).value| == m.cfg.scaleFactor
              && forall i {:trigger Decode(m.program[i])} :: m.pc <= i < m.pc + m.cfg.scaleFactor ==>
                   Decode(m.program[i]) == Ok(DecodeLanes(m).value[i - m.pc])
  {
    hide Decode, DecodeAll;
    var k := m.cfg.scaleFactor;
    if m.pc + k <= |m.program| {
      var window := m.program[m.pc..m.pc + k];
      assert forall i :: m.pc <= i < m.pc + k ==> window[i - m.pc] == m.program[i];
    }
  }

  /** A cycle's decode loop reports the first line of its window that does
      not decode. */
  lemma DecodeLanesFirstError(m: Machine)
    ensures forall i {:trigger Decode(m.program[i])} ::
              (m.pc <= i < |m.program| && i < m.pc + m.cfg.scaleFactor && Decode(m.program[i]).Err?
               && forall j {:trigger Decode(m.program[j])} :: m.pc <= j < i ==> Decode(m.program[j]).Ok?) ==>
              DecodeLanes(m) == Err(Decode(m.program[i]).error)
  {
    hide Decode, DecodeAll, DecodeLanes;
    var k := m.cfg.scaleFactor;
    if m.pc <= |m.program| {
      var hi := if m.pc + k <= |m.program| then m.pc + k else |m.program|;
      var window := m.program[m.pc..hi];
      DecodeLanesPresent(m);
      forall i | m.pc <= i < hi && Decode(m.program[i]).Err? && forall j :: m.pc <= j < i ==> Decode(m.program[j]).Ok?
        ensures DecodeLanes(m) == Err(Decode(m.program[i]).error)
      {
        DecodeSliceErrorAt(m.program, m.pc, hi, i);
      }
    }
  }

  /** `DecodeAllErrorAt` for the lines `lo` to `hi` of a program. */
  lemma DecodeSliceErrorAt(lines: seq<string>, lo: nat, hi: nat, i: nat)
    requires lo <= i < hi <= |lines| && Decode(lines[i]).Err?
    requires forall j {:trigger Decode(lines[j])} :: lo <= j < i ==> Decode(lines[j]).Ok?
    ensures DecodeAll(lines[lo..hi]) == Err(Decode(lines[i]).error)
  {
    hide Decode, DecodeAll;
    var window := lines[lo..hi];
    assert window[i - lo] == lines[i];
    forall j | 0 <= j < i - lo
      ensures Decode(window[j]).Ok?
    {
      assert window[j] == lines[lo + j];
    }
    DecodeAllErrorAt(window, i - lo);
  }

  /** The lines of a cycle's window that exist are decoded first, and their
      failure is the cycle's decode failure. */
  lemma DecodeLanesPresent(m: Machine)
    requires m.pc <= |m.program|
    ensures var hi := if m.pc + m.cfg.scaleFactor <= |m.program| then m.pc + m.cfg.scaleFactor else |m.program|;
            DecodeAll(m.program[m.pc..hi]).Err? ==> DecodeLanes(m) == Err(DecodeAll(m.program[m.pc..hi]).error)
  {
    hide Decode;
    assert m.program[m.pc..|m.program|] == m.program[m.pc..];
  }

  /** When every line of a cycle's window that exists decodes but the window
      runs past the end of the program, the decode loop reports the first
      missing line: Python's IndexError on `program[len(program)]`, or on
      `program[pc]` when `pc` is already past the end. */
  lemma DecodeLanesMissing(m: Machine)
    ensures (&& m.pc <= |m.program| < m.pc + m.cfg.scaleFactor
             && forall i {:trigger Decode(m.program[i])} :: m.pc <= i < |m.program| ==> Decode(m.program[i]).Ok?) ==>
              DecodeLanes(m) == Err(MissingInstruction(|m.program|))
    ensures m.pc > |m.program| ==> DecodeLanes(m) == Err(MissingInstruction(m.pc))
  {
    hide Decode;
    if m.pc <= |m.program| < m.pc + m.cfg.scaleFactor && forall i :: m.pc <= i < |m.program| ==> Decode(m.program[i]).Ok? {
      var present := m.program[m.pc..];
      assert forall j :: 0 <= j < |present| ==> present[j] == m.program[m.pc + j];
    }
  }

  /** Both input ranges of an instruction lie inside a memory of `memSize` cells. */
  predicate Readable(memSize: int, n: nat, ins: Instruction) {
    InRange(memSize, n, ins.iptr1) && InRange(memSize, n, ins.iptr2)
  }

  /** The read phase of one lane, keeping the decoded instruction alongside. */
  function ReadLane(m: Machine, ins: Instruction): (r: Result<Staged, SimError>)
    ensures r.Ok? <==> InRange(|m.memory|, m.cfg.operandSize, ins.iptr1) && InRange(|m.memory|, m.cfg.operandSize, ins.iptr2)
    ensures r.Err? ==> r.error == BadInputOperands(ins.iptr1, ins.iptr2)
    ensures r.Ok? ==> var n := m.cfg.operandSize;
                      r.value == Staged(ins, m.memory[ins.iptr1..ins.iptr1 + n], m.memory[ins.iptr2..ins.iptr2 + n])
  {
    var inputs :- ReadPhase(m, ins.iptr1, ins.iptr2);
    Ok(Staged(ins, inputs.0, inputs.1))
  }

  /** The read loop of one cycle: every lane reads the memory as it was when
      the cycle began, since no lane has written yet. */
  function ReadLanes(m: Machine, instrs: seq<Instruction>): (r: Result<seq<Staged>, SimError>)
    ensures r.Ok? <==> forall i :: 0 <= i < |instrs| ==> ReadLane(m, instrs[i]).Ok?
    ensures r.Ok? ==> |r.value| == |instrs| && forall i :: 0 <= i < |instrs| ==> Ok(r.value[i]) == ReadLane(m, instrs[i])
    decreases |instrs|
  {
    if |instrs| == 0 then Ok([])
    else
      var s :- ReadLane(m, instrs[0]);
      var rest :- ReadLanes(m, instrs[1..]);
      assert forall i :: 1 <= i < |instrs| ==> instrs[1..][i - 1] == instrs[i];
      Ok([s] + rest)
  }

  /** One step of the read loop's failure: lane 0's operands, or else
      whatever the later lanes report. */
  lemma ReadLanesErrorStep(m: Machine, instrs: seq<Instruction>)
    requires |instrs| > 0
    ensures !Readable(|m.memory|, m.cfg.operandSize, instrs[0]) ==>
              ReadLanes(m, instrs) == Err(BadInputOperands(instrs[0].iptr1, instrs[0].iptr2))
    ensures Readable(|m.memory|, m.cfg.operandSize, instrs[0]) && ReadLanes(m, instrs[1..]).Err? ==>
              ReadLanes(m, instrs) == ReadLanes(m, instrs[1..])
  {
    hide ReadLane;
  }

  /** A failing read loop reports the first lane whose operands leave the
      memory, naming both of its input pointers; no later lane is read. */
  lemma {:induction false} ReadLanesFirstError(m: Machine, instrs: seq<Instruction>)
    ensures ReadLanes(m, instrs).Err? ==>
              exists i :: 0 <= i < |instrs| && !Readable(|m.memory|, m.cfg.operandSize, instrs[i])
                && forall j :: 0 <= j < i ==> Readable(|m.memory|, m.cfg.operandSize, instrs[j])
    ensures forall i ::
              (0 <= i < |instrs| && !Readable(|m.memory|, m.cfg.operandSize, instrs[i])
               && forall j :: 0 <= j < i ==> Readable(|m.memory|, m.cfg.operandSize, instrs[j])) ==>
              ReadLanes(m, instrs) == Err(BadInputOperands(instrs[i].iptr1, instrs[i].iptr2))
    decreases |instrs|
  {
    hide ReadLane, ReadLanes;
    var n := m.cfg.operandSize;
    if |instrs| > 0 {
      ReadLanesErrorStep(m, instrs);
    }
    if |instrs| > 0 && Readable(|m.memory|, n, instrs[0]) {
      var tail := instrs[1..];
      ReadLanesFirstError(m, tail);
      assert forall j :: 0 <= j < |tail| ==> tail[j] == instrs[j + 1];
      if ReadLanes(m, instrs).Err? {
        var i :| 0 <= i < |tail| && !Readable(|m.memory|, n, tail[i])
                 && forall j :: 0 <= j < i ==> Readable(|m.memory|, n, tail[j]);
        assert !Readable(|m.memory|, n, instrs[i + 1]);
      }
      forall i | 0 < i < |instrs| && !Readable(|m.memory|, n, instrs[i])
                 && forall j :: 0 <= j < i ==> Readable(|m.memory|, n, instrs[j])
        ensures ReadLanes(m, instrs) == Err(BadInputOperands(instrs[i].iptr1, instrs[i].iptr2))
      {
        assert !Readable(|m.memory|, n, tail[i - 1]);
      }
    }
  }

  /** The arithmetic phase of one lane. */
  function ComputeLane(s: Staged): (r: Result<Pending, SimError>)
    requires |s.input1| == |s.input2|
    ensures r.Err? <==> s.instr.opcode.Undefined?
    ensures r.Err? ==> r.error == UndefinedInstruction(s.instr.opcode.mnemonic)
  {
    var output :- ArithmeticPhase(s.instr.opcode, s.input1, s.input2);
    Ok(Pending(s.instr.optr, output))
  }

  /** The arithmetic loop of one cycle. */
  function ComputeLanes(staged: seq<Staged>): (r: Result<seq<Pending>, SimError>)
    requires forall i :: 0 <= i < |staged| ==> |staged[i].input1| == |staged[i].input2|
    ensures r.Ok? <==> forall i :: 0 <= i < |staged| ==> !staged[i].instr.opcode.Undefined?
    ensures r.Ok? ==> |r.value| == |staged|
    ensures r.Ok? ==> forall i :: 0 <= i < |staged| ==>
                        r.value[i] == Pending(staged[i].instr.optr,
                                              ArithmeticPhase(staged[i].instr.opcode, staged[i].input1, staged[i].input2).value)
    decreases |staged|
  {
    if |staged| == 0 then Ok([])
    else
      var p :- ComputeLane(staged[0]);
      var rest :- ComputeLanes(staged[1..]);
      assert forall i :: 1 <= i < |staged| ==> staged[1..][i - 1] == staged[i];
      Ok([p] + rest)
  }

  /** A failing arithmetic loop reports the first lane whose opcode is
      unknown, by its mnemonic; no later lane is computed. */
  lemma {:induction false} ComputeLanesFirstError(staged: seq<Staged>)
    requires forall i :: 0 <= i < |staged| ==> |staged[i].input1| == |staged[i].input2|
    ensures ComputeLanes(staged).Err? ==>
              exists i :: 0 <= i < |staged| && staged[i].instr.opcode.Undefined?
                && forall j :: 0 <= j < i ==> !staged[j].instr.opcode.Undefined?
    ensures forall i ::
              (0 <= i < |staged| && staged[i].instr.opcode.Undefined?
               && forall j :: 0 <= j < i ==> !staged[j].instr.opcode.Undefined?) ==>
              ComputeLanes(staged) == Err(UndefinedInstruction(staged[i].instr.opcode.mnemonic))
    decreases |staged|
  {
    hide ComputeLane, ComputeLanes;
    if |staged| > 0 {
      ComputeLanesErrorStep(staged);
    }
    if |staged| > 0 && !staged[0].instr.opcode.Undefined? {
      var tail := staged[1..];
      ComputeLanesFirstError(tail);
      assert forall j :: 0 <= j < |tail| ==> tail[j] == staged[j + 1];
      if ComputeLanes(staged).Err? {
        var i :| 0 <= i < |tail| && tail[i].instr.opcode.Undefined?
                 && forall j :: 0 <= j < i ==> !tail[j].instr.opcode.Undefined?;
        assert staged[i + 1].instr.opcode.Undefined?;
      }
      forall i | 0 < i < |staged| && staged[i].instr.opcode.Undefined?
                 && forall j :: 0 <= j < i ==> !staged[j].instr.opcode.Undefined?
        ensures ComputeLanes(staged) == Err(UndefinedInstruction(staged[i].instr.opcode.mnemonic))
      {
        assert tail[i - 1].instr.opcode.Undefined?;
      }
    }
  }

  /** One step of the arithmetic loop's failure: lane 0's unknown opcode, or
      else whatever the later lanes report. */
  lemma ComputeLanesErrorStep(staged: seq<Staged>)
    requires |staged| > 0
    requires forall i :: 0 <= i < |staged| ==> |staged[i].input1| == |staged[i].input2|
    ensures staged[0].instr.opcode.Undefined? ==>
              ComputeLanes(staged) == Err(UndefinedInstruction(staged[0].instr.opcode.mnemonic))
    ensures !staged[0].instr.opcode.Undefined? && ComputeLanes(staged[1..]).Err? ==>
              ComputeLanes(staged) == ComputeLanes(staged[1..])
  {
    hide ComputeLane;
  }

  /** An instruction whose read phase and arithmetic phase succeed. */
  predicate Executable(memSize: int, n: nat, ins: Instruction) {
    Readable(memSize, n, ins) && !ins.opcode.Undefined?
  }

  /** An instruction whose read, arithmetic and write phases all succeed. */
  predicate Admissible(memSize: int, n: nat, ins: Instruction) {
    Executable(memSize, n, ins) && InRange(memSize, n, ins.optr)
  }

  /** What one instruction would write, computed from the memory `mem`. */
  function LaneResult(mem: seq<Cell>, n: nat, ins: Instruction): (p: Pending)
    requires Executable(|mem|, n, ins)
    ensures p.optr == ins.optr && |p.output| == n
  {
    var input1 := mem[ins.iptr1..ins.iptr1 + n];
    var input2 := mem[ins.iptr2..ins.iptr2 + n];
    Pending(ins.optr, ArithmeticPhase(ins.opcode, input1, input2).value)
  }

  /** Read and arithmetic phases of one cycle: every lane's output is
      computed from the memory as it was when the cycle began. */
  function Plan(m: Machine, instrs: seq<Instruction>): (r: Result<seq<Pending>, SimError>)
    ensures r.Ok? <==> forall i :: 0 <= i < |instrs| ==> Executable(|m.memory|, m.cfg.operandSize, instrs[i])
    ensures r.Ok? ==> |r.value| == |instrs|
    ensures r.Ok? ==> forall i :: 0 <= i < |instrs| ==> r.value[i] == LaneResult(m.memory, m.cfg.operandSize, instrs[i])
  {
    var staged :- ReadLanes(m, instrs);
    assert forall i :: 0 <= i < |instrs| ==> staged[i].instr == instrs[i];
    ComputeLanes(staged)
  }

  /** Some lane's output range covers cell `j`. */
  predicate Covered(lanes: seq<Pending>, n: nat, j: int) {
    exists i :: 0 <= i < |lanes| && lanes[i].optr <= j < lanes[i].optr + n
  }

  /** The write loop of one cycle, in lane order; each lane advances the
      program counter by one. */
  function WriteLanes(m: Machine, lanes: seq<Pending>): (r: Result<Machine, SimError>)
    requires forall i :: 0 <= i < |lanes| ==> |lanes[i].output| == m.cfg.operandSize
    ensures r.Ok? <==> forall i :: 0 <= i < |lanes| ==> InRange(|m.memory|, m.cfg.operandSize, lanes[i].optr)
    ensures r.Ok? ==> r.value.pc == m.pc + |lanes|
    ensures r.Ok? ==> r.value.cycles == m.cycles && r.value.cfg == m.cfg && r.value.program == m.program
    ensures r.Ok? ==> |r.value.memory| == |m.memory|
    ensures r.Ok? ==> forall j :: 0 <= j < |m.memory| && !Covered(lanes, m.cfg.operandSize, j) ==>
                        r.value.memory[j] == m.memory[j]
    ensures r.Ok? ==> forall i, j ::
                        (0 <= i < |lanes| && lanes[i].optr <= j < lanes[i].optr + m.cfg.operandSize &&
                         !Covered(lanes[i + 1..], m.cfg.operandSize, j)) ==>
                        r.value.memory[j] == lanes[i].output[j - lanes[i].optr]
    decreases |lanes|
  {
    if |lanes| == 0 then Ok(m)
    else
      var m' :- WritePhase(m, lanes[0].optr, lanes[0].output);
      var r := WriteLanes(m', lanes[1..]);
      if r.Ok? then
        WriteStep(m.cfg.operandSize, lanes, m.memory, m'.memory, r.value.memory);
        r
      else r
  }

  /** One step of the write loop's failure: lane 0's output range, or else
      whatever the later lanes report on the memory lane 0 left. */
  lemma WriteLanesErrorStep(m: Machine, lanes: seq<Pending>)
    requires |lanes| > 0
    requires forall i :: 0 <= i < |lanes| ==> |lanes[i].output| == m.cfg.operandSize
    ensures !InRange(|m.memory|, m.cfg.operandSize, lanes[0].optr) ==>
              WriteLanes(m, lanes) == Err(BadOutputOperand(lanes[0].optr))
    ensures InRange(|m.memory|, m.cfg.operandSize, lanes[0].optr) ==>
              var m' := WritePhase(m, lanes[0].optr, lanes[0].output).value;
              WriteLanes(m', lanes[1..]).Err? ==> WriteLanes(m, lanes) == WriteLanes(m', lanes[1..])
  {
    hide WritePhase;
  }

  /** A failing write loop reports the first lane whose output range leaves
      the memory; the lanes before it have written, no later lane writes. */
  lemma {:induction false} WriteLanesFirstError(m: Machine, lanes: seq<Pending>)
    requires forall i :: 0 <= i < |lanes| ==> |lanes[i].output| == m.cfg.operandSize
    ensures WriteLanes(m, lanes).Err? ==>
              exists i :: 0 <= i < |lanes| && !InRange(|m.memory|, m.cfg.operandSize, lanes[i].optr)
                && forall j :: 0 <= j < i ==> InRange(|m.memory|, m.cfg.operandSize, lanes[j].optr)
    ensures forall i ::
              (0 <= i < |lanes| && !InRange(|m.memory|, m.cfg.operandSize, lanes[i].optr)
               && forall j :: 0 <= j < i ==> InRange(|m.memory|, m.cfg.operandSize, lanes[j].optr)) ==>
              WriteLanes(m, lanes) == Err(BadOutputOperand(lanes[i].optr))
    decreases |lanes|
  {
    hide WritePhase, WriteLanes;
    var n := m.cfg.operandSize;
    if |lanes| > 0 {
      WriteLanesErrorStep(m, lanes);
    }
    if |lanes| > 0 && InRange(|m.memory|, n, lanes[0].optr) {
      var m' := WritePhase(m, lanes[0].optr, lanes[0].output).value;
      var tail := lanes[1..];
      WriteLanesFirstError(m', tail);
      assert forall j :: 0 <= j < |tail| ==> tail[j] == lanes[j + 1];
      if WriteLanes(m, lanes).Err? {
        var i :| 0 <= i < |tail| && !InRange(|m.memory|, n, tail[i].optr)
                 && forall j :: 0 <= j < i ==> InRange(|m.memory|, n, tail[j].optr);
        assert !InRange(|m.memory|, n, lanes[i + 1].optr);
      }
      forall i | 0 < i < |lanes| && !InRange(|m.memory|, n, lanes[i].optr)
                 && forall j :: 0 <= j < i ==> InRange(|m.memory|, n, lanes[j].optr)
        ensures WriteLanes(m, lanes) == Err(BadOutputOperand(lanes[i].optr))
      {
        assert !InRange(|m.memory|, n, tail[i - 1].optr);
      }
    }
  }

  /** One step of the write loop: lane 0 takes the memory from `mem` to
      `mid`, and the later lanes take `mid` to `fin`. Whatever the later
      lanes leave alone keeps lane 0's output, and the cells no lane
      covers keep their value from `mem`. */
  lemma WriteStep(n: nat, lanes: seq<Pending>, mem: seq<Cell>, mid: seq<Cell>, fin: seq<Cell>)
    requires |lanes| > 0 && |mid| == |mem| && |fin| == |mid|
    requires forall i :: 0 <= i < |lanes| ==> |lanes[i].output| == n
    requires forall i :: 0 <= i < |lanes| ==> 0 <= lanes[i].optr && lanes[i].optr + n <= |mem|
    requires forall j :: 0 <= j < |mem| ==>
               mid[j] == if lanes[0].optr <= j < lanes[0].optr + n then lanes[0].output[j - lanes[0].optr] else mem[j]
    requires forall j :: 0 <= j < |mid| && !Covered(lanes[1..], n, j) ==> fin[j] == mid[j]
    requires forall i, j ::
               (0 <= i < |lanes[1..]| && lanes[1..][i].optr <= j < lanes[1..][i].optr + n &&
                !Covered(lanes[1..][i + 1..], n, j)) ==>
               fin[j] == lanes[1..][i].output[j - lanes[1..][i].optr]
    ensures forall j :: 0 <= j < |mem| && !Covered(lanes, n, j) ==> fin[j] == mem[j]
    ensures forall i, j ::
              (0 <= i < |lanes| && lanes[i].optr <= j < lanes[i].optr + n && !Covered(lanes[i + 1..], n, j)) ==>
              fin[j] == lanes[i].output[j - lanes[i].optr]
  {
    forall j | 0 <= j < |mem| && !Covered(lanes, n, j)
      ensures fin[j] == mem[j]
    {
      assert !Covered(lanes[1..], n, j) by {
        forall i | 0 <= i < |lanes[1..]|
          ensures !(lanes[1..][i].optr <= j < lanes[1..][i].optr + n)
        {
          assert lanes[1..][i] == lanes[i + 1];
        }
      }
    }
    forall i, j | 0 <= i < |lanes| && lanes[i].optr <= j < lanes[i].optr + n && !Covered(lanes[i + 1..], n, j)
      ensures fin[j] == lanes[i].output[j - lanes[i].optr]
    {
      if i > 0 {
        assert lanes[1..][i - 1] == lanes[i] && lanes[1..][i - 1 + 1..] == lanes[i + 1..];
      }
    }
  }

  /** Read, arithmetic and write phases of one cycle, for its decoded lanes. */
  function Execute(m: Machine, instrs: seq<Instruction>): (r: Result<Machine, SimError>)
    ensures r.Ok? <==> forall i :: 0 <= i < |instrs| ==> Admissible(|m.memory|, m.cfg.operandSize, instrs[i])
    ensures r.Ok? ==> r.value.pc == m.pc + |instrs| && r.value.cycles == m.cycles
    ensures r.Ok? ==> r.value.cfg == m.cfg && r.value.program == m.program && |r.value.memory| == |m.memory|
  {
    var lanes :- Plan(m, instrs);
    WriteLanes(m, lanes)
  }

  /** One cycle of `run_program`. */
  function Cycle(m: Machine): (r: Result<Machine, SimError>)
    ensures r.Ok? <==> DecodeLanes(m).Ok? && forall i :: 0 <= i < m.cfg.scaleFactor ==>
                         Admissible(|m.memory|, m.cfg.operandSize, DecodeLanes(m).value[i])
    ensures r.Ok? ==> m.pc + m.cfg.scaleFactor <= |m.program|
    ensures r.Ok? ==> r.value.pc == m.pc + m.cfg.scaleFactor && r.value.cycles == m.cycles + 1
    ensures r.Ok? ==> r.value.cfg == m.cfg && r.value.program == m.program && |r.value.memory| == |m.memory|
  {
    var instrs :- DecodeLanes(m);
    var m' :- Execute(m, instrs);
    Ok(m'.(cycles := m'.cycles + 1))
  }

  /** A cycle whose lanes decode runs the three phases on them and counts itself. */
  lemma CycleRunsGroup(m: Machine, group: seq<Instruction>)
    requires DecodeLanes(m) == Ok(group)
    ensures Cycle(m).Ok? <==> Execute(m, group).Ok?
    ensures Cycle(m).Ok? ==> Cycle(m).value == Execute(m, group).value.(cycles := Execute(m, group).value.cycles + 1)
  {
  }

  /** How many cycles `left` remaining instructions take with `k` lanes, or
      None when they do not fill whole cycles (the last cycle would run off
      the end of the program). */
  function CyclesNeeded(left: nat, k: Lanes): Option<nat>
    decreases left
  {
    if left == 0 then Some(0)
    else if left < k then None
    else match CyclesNeeded(left - k, k)
      case None => None
      case Some(c) => Some(c + 1)
  }

  /** Whole cycles exist exactly when `k` divides the instruction count, and
      then there are `left / k` of them. */
  lemma {:induction false} CyclesNeededDivides(left: nat, k: Lanes)
    ensures CyclesNeeded(left, k).Some? <==> left % k == 0
    ensures CyclesNeeded(left, k).Some? ==> CyclesNeeded(left, k).value == left / k
    decreases left
  {
    if left == 0 {
    } else if left < k {
      DivMod.DivUnique(left, k, 0, left);
    } else {
      DivMod.DivStep(left, k);
      CyclesNeededDivides(left - k, k);
    }
  }

  /** The `while pc < len(program)` loop, from the current program counter on. */
  function Cycles(m: Machine): (r: Result<Machine, SimError>)
    requires m.pc <= |m.program|
    ensures r.Ok? ==> CyclesNeeded(|m.program| - m.pc, m.cfg.scaleFactor).Some?
    ensures r.Ok? ==> r.value.pc == |m.program|
    ensures r.Ok? ==> r.value.cycles == m.cycles + CyclesNeeded(|m.program| - m.pc, m.cfg.scaleFactor).value
    ensures r.Ok? ==> r.value.cfg == m.cfg && r.value.program == m.program && |r.value.memory| == |m.memory|
    decreases |m.program| - m.pc
  {
    hide Decode, DecodeAll, DecodeLanes, Execute, Cycle;
    if m.pc >= |m.program| then Ok(m)
    else
      var m' :- Cycle(m);
      var left := |m.program| - m.pc;
      assert |m'.program| - m'.pc == left - m.cfg.scaleFactor;
      Cycles(m')
  }

  /** One turn of the `while` loop: stop at the end of the program, else run
      a cycle and continue from where it left off. */
  lemma CyclesNext(m: Machine)
    requires m.pc <= |m.program|
    ensures m.pc == |m.program| ==> Cycles(m) == Ok(m)
    ensures m.pc < |m.program| ==> Cycles(m) == match Cycle(m)
                                                case Err(e) => Err(e)
                                                case Ok(next) => Cycles(next)
  {
  }

  /** `run_program`: restarts the program counter (but not the cycle counter)
      and runs cycles until the program is exhausted. */
  function Run(m: Machine): (r: Result<Machine, SimError>)
    ensures r.Ok? ==> |m.program| % m.cfg.scaleFactor == 0
    ensures r.Ok? ==> r.value.pc == |m.program|
    ensures r.Ok? ==> r.value.cycles == m.cycles + |m.program| / m.cfg.scaleFactor
    ensures r.Ok? ==> r.value.cfg == m.cfg && r.value.program == m.program && |r.value.memory| == |m.memory|
  {
    CyclesNeededDivides(|m.program|, m.cfg.scaleFactor);
    Cycles(m.(pc := 0))
  }

  /** `run_program` as the source writes it: a loop over cycles. At every
      cycle boundary the program counter is a whole number of cycles into
      the program, and the loop ends exactly where `Run` ends. */
  method RunProgram(m: Machine) returns (r: Result<Machine, SimError>)
    ensures r == Run(m)
  {
    hide Decode, DecodeAll, DecodeLanes, Execute, Cycle, Cycles;
    var k := m.cfg.scaleFactor;
    var cur := m.(pc := 0);
    while cur.pc < |cur.program|
      invariant cur.program == m.program && cur.cfg == m.cfg && cur.pc <= |cur.program|
      invariant cur.pc % k == 0
      invariant Cycles(cur) == Cycles(m.(pc := 0))
      decreases |cur.program| - cur.pc
    {
      CyclesNext(cur);
      var next := Cycle(cur);
      if next.Err? {
        return Err(next.error);
      }
      DivMod.DivStep(cur.pc + k, k);
      cur := next.value;
    }
    CyclesNext(cur);
    return Ok(cur);
  }
}
