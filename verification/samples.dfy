/** Worked examples: four-cell operands over a twelve-cell memory that
    holds `[0, 1, 2, 3]` at 0 and `[4, 5, 6, 7]` at 4. */
module Samples {
  import opened Results
  import opened Isa
  import opened Memory
  import opened Arithmetic
  import opened Simulator

  const Seeded: seq<Cell> := [0, 1, 2, 3, 4, 5, 6, 7, 0, 0, 0, 0]

  const Small: Machine := Machine(Config(1, 4), Seeded, [], 0, 0)

  /** A one-lane cycle body stores its lane's result at the output pointer. */
  lemma OneLane(m: Machine, ins: Instruction)
    requires Admissible(|m.memory|, m.cfg.operandSize, ins)
    ensures Execute(m, [ins]).Ok?
    ensures var n := m.cfg.operandSize;
            Execute(m, [ins]).value.memory[ins.optr..ins.optr + n] == LaneResult(m.memory, n, ins).output
  {
    hide Plan, WriteLanes, ReadLanes, ComputeLanes, ArithmeticPhase, LaneResult, Store;
    var n := m.cfg.operandSize;
    var lanes := Plan(m, [ins]).value;
    var after := Execute(m, [ins]).value.memory;
    assert lanes[0] == LaneResult(m.memory, n, ins);
    assert forall j :: ins.optr <= j < ins.optr + n ==> after[j] == lanes[0].output[j - ins.optr];
  }

  /** The four cells the seeded memory holds at 0 or at 4. */
  function Block(p: int): Operand
  {
    if p == 0 then [0, 1, 2, 3] else [4, 5, 6, 7]
  }

  /** What `OP 8 P1 P2` writes at 8, for input pointers 0 or 4. */
  function Written(op: Opcode, p1: int, p2: int): seq<Cell>
    requires !op.Undefined? && p1 in {0, 4} && p2 in {0, 4}
  {
    Execute(Small, [Instruction(op, 8, p1, p2)]).value.memory[8..]
  }

  lemma SeededBlocks()
    ensures Seeded[0..4] == Block(0) && Seeded[4..8] == Block(4)
  {
  }

  /** The instruction succeeds and writes the arithmetic phase's output for
      the operands at its input pointers. */
  lemma WrittenIsComputed(op: Opcode, p1: int, p2: int)
    requires !op.Undefined? && p1 in {0, 4} && p2 in {0, 4}
    ensures Execute(Small, [Instruction(op, 8, p1, p2)]).Ok?
    ensures Written(op, p1, p2) == ArithmeticPhase(op, Block(p1), Block(p2)).value
  {
    hide Execute, Plan, WriteLanes, ReadLanes, ComputeLanes, ArithmeticPhase;
    var ins := Instruction(op, 8, p1, p2);
    OneLane(Small, ins);
    SeededBlocks();
    assert Execute(Small, [ins]).value.memory[8..] == Execute(Small, [ins]).value.memory[8..12];
  }

  /** The arithmetic phase on four-cell operands, cell by cell. */
  lemma FourCells(op: Opcode, a: Operand, b: Operand)
    requires !op.Undefined? && |a| == |b| == 4
    ensures ArithmeticPhase(op, a, b)
            == Ok([CellOp(op, a[0], b[0]), CellOp(op, a[1], b[1]), CellOp(op, a[2], b[2]), CellOp(op, a[3], b[3])])
  {
    var r := ArithmeticPhase(op, a, b).value;
    assert r == [r[0], r[1], r[2], r[3]];
  }

  /** `ADD 8 0 4` */
  lemma AddCase()
    ensures Written(ADD, 0, 4) == [4, 6, 8, 10]
  {
    hide Written, Execute, Plan, WriteLanes, ArithmeticPhase;
    WrittenIsComputed(ADD, 0, 4);
    FourCells(ADD, [0, 1, 2, 3], [4, 5, 6, 7]);
  }

  /** `SUB 8 4 0` */
  lemma SubCase()
    ensures Written(SUB, 4, 0) == [4, 4, 4, 4]
  {
    hide Written, Execute, Plan, WriteLanes, ArithmeticPhase;
    WrittenIsComputed(SUB, 4, 0);
    FourCells(SUB, [4, 5, 6, 7], [0, 1, 2, 3]);
  }

  /** `MULT 8 0 4` */
  lemma MultCase()
    ensures Written(MULT, 0, 4) == [0, 5, 12, 21]
  {
    hide Written, Execute, Plan, WriteLanes, ArithmeticPhase;
    WrittenIsComputed(MULT, 0, 4);
    FourCells(MULT, [0, 1, 2, 3], [4, 5, 6, 7]);
  }

  /** `AND 8 0 4` */
  lemma AndCase()
    ensures Written(AND, 0, 4) == [0, 1, 2, 3]
  {
    hide Written, Execute, Plan, WriteLanes, ArithmeticPhase;
    WrittenIsComputed(AND, 0, 4);
    FourCells(AND, [0, 1, 2, 3], [4, 5, 6, 7]);
  }

  /** `NOR 8 0 4`: the 64-bit NOT of `[0, 1, 2, 3]`, that is -1, -2, -3, -4
      as int64; the operand at 4 plays no part. */
  lemma NorCase()
    ensures Written(NOR, 0, 4) == [0xFFFF_FFFF_FFFF_FFFF, 0xFFFF_FFFF_FFFF_FFFE, 0xFFFF_FFFF_FFFF_FFFD, 0xFFFF_FFFF_FFFF_FFFC]
  {
    hide Written, Execute, Plan, WriteLanes, ArithmeticPhase;
    WrittenIsComputed(NOR, 0, 4);
    FourCells(NOR, [0, 1, 2, 3], [4, 5, 6, 7]);
  }
}
