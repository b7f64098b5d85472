/** What the scale factor does and does not change. A run with `k` lanes
    computes, in every cycle, all `k` outputs from the memory as it was when
    the cycle began, then writes them in lane order. When no lane writes a
    range that a later lane of the same cycle reads, that is the same as
    running the instructions one at a time, so the final memory does not
    depend on the scale factor; only the cycle count does. */
module Scaling {
  import opened Results
  import opened Faults
  import opened Isa
  import opened Memory
  import opened Simulator
  import DivMod

  /** Reference semantics: the instructions one at a time, each reading the
      memory the previous one left behind. None when an instruction would stop
      the simulator. */
  function Serial(n: nat, mem: seq<Cell>, d: seq<Instruction>): (r: Option<seq<Cell>>)
    ensures r.Some? <==> forall i :: 0 <= i < |d| ==> Admissible(|mem|, n, d[i])
    ensures r.Some? ==> |r.value| == |mem|
    decreases |d|
  {
    if |d| == 0 then Some(mem)
    else if !Admissible(|mem|, n, d[0]) then None
    else
      var p := LaneResult(mem, n, d[0]);
      var rest := Serial(n, Store(mem, p.optr, p.output), d[1..]);
      assert forall i :: 1 <= i < |d| ==> d[1..][i - 1] == d[i];
      rest
  }

  /** Running `a + b` one at a time is running `a`, then `b`. */
  lemma {:induction false} SerialAppend(n: nat, mem: seq<Cell>, a: seq<Instruction>, b: seq<Instruction>)
    ensures Serial(n, mem, a + b) == match Serial(n, mem, a)
                                     case None => None
                                     case Some(after) => Serial(n, after, b)
    decreases |a|
  {
    if |a| == 0 {
      assert a + b == b;
    } else if Admissible(|mem|, n, a[0]) {
      var p := LaneResult(mem, n, a[0]);
      assert (a + b)[0] == a[0];
      assert (a + b)[1..] == a[1..] + b;
      SerialAppend(n, Store(mem, p.optr, p.output), a[1..], b);
    } else {
      assert (a + b)[0] == a[0];
    }
  }

  /** No lane writes a range that a later lane of the same cycle reads. */
  predicate NoForwardAliasing(n: nat, d: seq<Instruction>) {
    forall j, l :: 0 <= j < l < |d| ==> Disjoint(d[j].optr, d[l].iptr1, n) && Disjoint(d[j].optr, d[l].iptr2, n)
  }

  /** The same, for every cycle of a program run with `k` lanes: each
      successive block of `k` instructions is one cycle. */
  predicate NoAliasingWithinCycles(n: nat, k: Lanes, d: seq<Instruction>)
    decreases |d|
  {
    if |d| <= k then NoForwardAliasing(n, d)
    else NoForwardAliasing(n, d[..k]) && NoAliasingWithinCycles(n, k, d[k..])
  }

  /** The memories `a` and `b` hold the same cells wherever `ins` reads. */
  predicate ReadsAgree(a: seq<Cell>, b: seq<Cell>, n: nat, ins: Instruction) {
    && |a| == |b|
    && InRange(|a|, n, ins.iptr1) && InRange(|a|, n, ins.iptr2)
    && a[ins.iptr1..ins.iptr1 + n] == b[ins.iptr1..ins.iptr1 + n]
    && a[ins.iptr2..ins.iptr2 + n] == b[ins.iptr2..ins.iptr2 + n]
  }

  /** A store disjoint from everything `ins` reads keeps the agreement. */
  lemma StoreKeepsReads(mem: seq<Cell>, start: seq<Cell>, n: nat, ins: Instruction, ptr: int, out: Operand)
    requires ReadsAgree(mem, start, n, ins)
    requires |out| == n && InRange(|mem|, n, ptr)
    requires Disjoint(ptr, ins.iptr1, n) && Disjoint(ptr, ins.iptr2, n)
    ensures ReadsAgree(Store(mem, ptr, out), start, n, ins)
  {
    StoreFrame(mem, ptr, out, ins.iptr1);
    StoreFrame(mem, ptr, out, ins.iptr2);
  }

  /** The write loop, fed outputs computed from the cycle's starting memory
      `start`, ends where the serial run ends, as long as the memory it
      writes into still agrees with `start` wherever a remaining lane reads. */
  lemma {:induction false} WriteLanesIsSerial(m: Machine, start: seq<Cell>, d: seq<Instruction>, lanes: seq<Pending>)
    requires |m.memory| == |start| && |lanes| == |d|
    requires forall i :: 0 <= i < |d| ==> Executable(|start|, m.cfg.operandSize, d[i])
    requires forall i :: 0 <= i < |d| ==> lanes[i] == LaneResult(start, m.cfg.operandSize, d[i])
    requires forall i :: 0 <= i < |d| ==> |lanes[i].output| == m.cfg.operandSize
    requires forall i :: 0 <= i < |d| ==> ReadsAgree(m.memory, start, m.cfg.operandSize, d[i])
    requires NoForwardAliasing(m.cfg.operandSize, d)
    ensures WriteLanes(m, lanes).Ok? <==> Serial(m.cfg.operandSize, m.memory, d).Some?
    ensures WriteLanes(m, lanes).Ok? ==> WriteLanes(m, lanes).value.memory == Serial(m.cfg.operandSize, m.memory, d).value
    decreases |d|
  {
    var n := m.cfg.operandSize;
    if |d| > 0 {
      var p := lanes[0];
      assert ReadsAgree(m.memory, start, n, d[0]);
      assert p == LaneResult(m.memory, n, d[0]);
      if InRange(|m.memory|, n, p.optr) {
        var m' := WritePhase(m, p.optr, p.output).value;
        assert m'.memory == Store(m.memory, p.optr, p.output);
        forall i | 1 <= i < |d|
          ensures ReadsAgree(m'.memory, start, n, d[i])
        {
          StoreKeepsReads(m.memory, start, n, d[i], p.optr, p.output);
        }
        assert forall i :: 0 <= i < |d| - 1 ==> d[1..][i] == d[i + 1] && lanes[1..][i] == lanes[i + 1];
        WriteLanesIsSerial(m', start, d[1..], lanes[1..]);
      }
    }
  }

  /** The phases of one cycle, over non-aliasing lanes, are the serial run
      of those lanes' instructions. */
  lemma ExecuteIsSerial(m: Machine, d: seq<Instruction>)
    requires NoForwardAliasing(m.cfg.operandSize, d)
    ensures Execute(m, d).Ok? <==> Serial(m.cfg.operandSize, m.memory, d).Some?
    ensures Execute(m, d).Ok? ==> Execute(m, d).value.memory == Serial(m.cfg.operandSize, m.memory, d).value
  {
    if Plan(m, d).Ok? {
      assert forall i :: 0 <= i < |d| ==> ReadsAgree(m.memory, m.memory, m.cfg.operandSize, d[i]);
      WriteLanesIsSerial(m, m.memory, d, Plan(m, d).value);
    }
  }

  /** With one lane per cycle there is nothing to alias. */
  lemma {:induction false} SingleLaneNeverAliases(n: nat, d: seq<Instruction>)
    ensures NoAliasingWithinCycles(n, 1, d)
    decreases |d|
  {
    if |d| > 1 {
      SingleLaneNeverAliases(n, d[1..]);
    }
  }

  /** A cycle starting inside a fully decoded program decodes the matching
      slice of its instructions. */
  lemma GroupDecoded(m: Machine, d: seq<Instruction>)
    requires DecodeAll(m.program) == Ok(d)
    requires m.pc + m.cfg.scaleFactor <= |m.program|
    ensures DecodeLanes(m) == Ok(d[m.pc..m.pc + m.cfg.scaleFactor])
  {
    hide Decode, DecodeAll, DecodeLanes;
    var k := m.cfg.scaleFactor;
    DecodeLanesLines(m);
    var v := DecodeLanes(m).value;
    assert forall i :: 0 <= i < k ==> v[i] == d[m.pc + i] by {
      forall i | 0 <= i < k
        ensures v[i] == d[m.pc + i]
      {
        assert Decode(m.program[m.pc + i]) == Ok(d[m.pc + i]);
      }
    }
    assert v == d[m.pc..m.pc + k];
  }

  /** The first cycle of a non-aliasing run does not alias, nor do the rest. */
  lemma NoAliasingSplit(n: nat, k: Lanes, d: seq<Instruction>, pc: nat)
    requires pc + k <= |d|
    requires NoAliasingWithinCycles(n, k, d[pc..])
    ensures NoForwardAliasing(n, d[pc..pc + k]) && NoAliasingWithinCycles(n, k, d[pc + k..])
  {
    var rest := d[pc..];
    assert rest[..k] == d[pc..pc + k] && rest[k..] == d[pc + k..];
    if |rest| == k {
      assert rest[..k] == rest;
    }
  }

  /** Cutting the suffix of `s` from `i` after its first `k` elements. */
  lemma SplitAt<T>(s: seq<T>, i: nat, k: nat)
    requires i + k <= |s|
    ensures s[i..][..k] == s[i..i + k] && s[i..][k..] == s[i + k..]
  {
  }

  /** One full cycle at `m.pc`, when its lanes do not alias, is the serial
      run of the instructions it covers. */
  lemma CycleIsSerial(m: Machine, group: seq<Instruction>)
    requires DecodeLanes(m) == Ok(group)
    requires NoForwardAliasing(m.cfg.operandSize, group)
    ensures Cycle(m).Ok? <==> Serial(m.cfg.operandSize, m.memory, group).Some?
    ensures Cycle(m).Ok? ==> Cycle(m).value.memory == Serial(m.cfg.operandSize, m.memory, group).value
  {
    ExecuteIsSerial(m, group);
  }

  /** The cycle loop over instructions that are already decoded: `rest`
      runs in blocks of `k` lanes, each block through the read, arithmetic
      and write phases of one cycle. The final memory, or None when a phase
      fails or the last block is short. */
  function Lockstep(m: Machine, rest: seq<Instruction>): (r: Option<seq<Cell>>)
    ensures r.Some? ==> |rest| % m.cfg.scaleFactor == 0 && |r.value| == |m.memory|
    decreases |rest|
  {
    var k := m.cfg.scaleFactor;
    if |rest| == 0 then Some(m.memory)
    else if |rest| < k then None
    else match Execute(m, rest[..k])
      case Err(_) => None
      case Ok(m') =>
        DivMod.DivStep(|rest|, k);
        Lockstep(m'.(cycles := m'.cycles + 1), rest[k..])
  }

  /** One block of the decoded-instruction loop. */
  lemma LockstepStep(m: Machine, rest: seq<Instruction>)
    ensures |rest| == 0 ==> Lockstep(m, rest) == Some(m.memory)
    ensures 0 < |rest| < m.cfg.scaleFactor ==> Lockstep(m, rest) == None
    ensures |rest| >= m.cfg.scaleFactor ==>
            var k := m.cfg.scaleFactor;
            Lockstep(m, rest) == match Execute(m, rest[..k])
                                 case Err(_) => None
                                 case Ok(m') => Lockstep(m'.(cycles := m'.cycles + 1), rest[k..])
  {
  }

  /** From a cycle boundary of a fully decoded program, the cycle loop ends
      where the decoded-instruction loop ends. */
  lemma {:induction false} CyclesAreLockstep(m: Machine, d: seq<Instruction>)
    requires DecodeAll(m.program) == Ok(d)
    requires m.pc <= |m.program|
    ensures Cycles(m).Ok? <==> Lockstep(m, d[m.pc..]).Some?
    ensures Cycles(m).Ok? ==> Cycles(m).value.memory == Lockstep(m, d[m.pc..]).value
    decreases |m.program| - m.pc
  {
    hide Decode, DecodeAll, DecodeLanes, Execute, Cycle, Cycles, Lockstep;
    var k := m.cfg.scaleFactor;
    var left := |m.program| - m.pc;
    var rest := d[m.pc..];
    assert |rest| == left;
    CyclesNext(m);
    LockstepStep(m, rest);
    if left == 0 {
    } else if left < k {
    } else {
      var group := d[m.pc..m.pc + k];
      GroupDecoded(m, d);
      SplitAt(d, m.pc, k);
      CycleRunsGroup(m, group);
      if Execute(m, group).Ok? {
        var m' := Execute(m, group).value;
        var next := m'.(cycles := m'.cycles + 1);
        assert next.pc == m.pc + k;
        assert Cycle(m) == Ok(next);
        assert Lockstep(m, rest) == Lockstep(next, d[m.pc + k..]);
        CyclesAreLockstep(next, d);
      }
    }
  }

  /** The decoded-instruction loop, with no aliasing inside any block, ends
      where the serial run ends, and succeeds only on whole blocks. */
  lemma {:induction false} LockstepIsSerial(m: Machine, rest: seq<Instruction>)
    requires NoAliasingWithinCycles(m.cfg.operandSize, m.cfg.scaleFactor, rest)
    ensures Lockstep(m, rest).Some? <==> CyclesNeeded(|rest|, m.cfg.scaleFactor).Some?
                                         && Serial(m.cfg.operandSize, m.memory, rest).Some?
    ensures Lockstep(m, rest).Some? ==> Lockstep(m, rest).value == Serial(m.cfg.operandSize, m.memory, rest).value
    decreases |rest|
  {
    hide Execute, Lockstep;
    var k := m.cfg.scaleFactor;
    var n := m.cfg.operandSize;
    LockstepStep(m, rest);
    if |rest| >= k {
      var group := rest[..k];
      var tail := rest[k..];
      if |rest| == k {
        assert group == rest;
      }
      assert group + tail == rest;
      ExecuteIsSerial(m, group);
      SerialAppend(n, m.memory, group, tail);
      match Execute(m, group) {
        case Err(_) =>
          assert Lockstep(m, rest) == None;
          assert Serial(n, m.memory, group) == None;
        case Ok(m') =>
          var next := m'.(cycles := m'.cycles + 1);
          assert Lockstep(m, rest) == Lockstep(next, tail);
          LockstepIsSerial(next, tail);
          assert Serial(n, m.memory, rest) == Serial(n, next.memory, tail);
          assert CyclesNeeded(|rest|, k).Some? <==> CyclesNeeded(|tail|, k).Some?;
      }
    } else if |rest| > 0 {
      assert CyclesNeeded(|rest|, k).None?;
    }
  }

  /** The cycles left from a cycle boundary, under the non-aliasing condition
      on the instructions still to run, end where the serial run of those
      instructions ends. */
  lemma CyclesAreSerial(m: Machine, d: seq<Instruction>)
    requires DecodeAll(m.program) == Ok(d)
    requires m.pc <= |m.program|
    requires NoAliasingWithinCycles(m.cfg.operandSize, m.cfg.scaleFactor, d[m.pc..])
    ensures Cycles(m).Ok? <==> CyclesNeeded(|m.program| - m.pc, m.cfg.scaleFactor).Some?
                               && Serial(m.cfg.operandSize, m.memory, d[m.pc..]).Some?
    ensures Cycles(m).Ok? ==> Cycles(m).value.memory == Serial(m.cfg.operandSize, m.memory, d[m.pc..]).value
  {
    hide Decode, DecodeAll, Cycles, Lockstep;
    CyclesAreLockstep(m, d);
    LockstepIsSerial(m, d[m.pc..]);
  }

  /** Scale invariance: with no aliasing inside any cycle, a run with `k`
      lanes succeeds exactly when the one-lane run succeeds and the program
      fills whole cycles, and both leave the same memory. */
  lemma ScaleInvariance(m: Machine, d: seq<Instruction>)
    requires DecodeAll(m.program) == Ok(d)
    requires NoAliasingWithinCycles(m.cfg.operandSize, m.cfg.scaleFactor, d)
    ensures var single := m.(cfg := m.cfg.(scaleFactor := 1));
            && (Run(m).Ok? <==> Run(single).Ok? && |m.program| % m.cfg.scaleFactor == 0)
            && (Run(m).Ok? ==> Run(m).value.memory == Run(single).value.memory)
  {
    var single := m.(cfg := m.cfg.(scaleFactor := 1));
    SingleLaneNeverAliases(m.cfg.operandSize, d);
    assert d[0..] == d;
    CyclesAreSerial(m.(pc := 0), d);
    CyclesAreSerial(single.(pc := 0), d);
    CyclesNeededDivides(|m.program|, m.cfg.scaleFactor);
    CyclesNeededDivides(|m.program|, 1);
  }
}
