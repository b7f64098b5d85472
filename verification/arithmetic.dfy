/** The arithmetic phase: an elementwise operation on the lane's two input
    operands, chosen by the opcode. Cells are 64-bit two's-complement words,
    so ADD, SUB and MULT wrap around as int64 arithmetic does. */
module Arithmetic {
  import opened Results
  import opened Faults
  import opened Isa
  import opened Memory

  /** What one output cell is, given the two input cells at the same index.
      NOR is a single-operand instruction: the bitwise NOT of the first input. */
  function CellOp(op: Opcode, x: Cell, y: Cell): Cell
    requires !op.Undefined?
  {
    match op
    case ADD => x + y
    case SUB => x - y
    case MULT => Times(x, y)
    case AND => x & y
    case OR => x | y
    case XOR => x ^ y
    case NOR => !x
  }

  /** Product modulo 2^64, kept apart so that proofs about the other opcodes
      never see a 64-bit multiplication. */
  function Times(x: Cell, y: Cell): Cell
  {
    x * y
  }

  /** `arithmetic_phase` for one lane: the output operand, or the default
      arm's failure for an opcode outside the seven. */
  function ArithmeticPhase(op: Opcode, input1: Operand, input2: Operand): (r: Result<Operand, SimError>)
    requires |input1| == |input2|
    ensures r.Ok? <==> !op.Undefined?
    ensures r.Err? ==> r.error == UndefinedInstruction(Mnemonic(op))
    ensures r.Ok? ==> |r.value| == |input1|
    ensures r.Ok? ==> forall k :: 0 <= k < |input1| ==> r.value[k] == CellOp(op, input1[k], input2[k])
  {
    if op.Undefined? then Err(UndefinedInstruction(op.mnemonic))
    else Ok(seq(|input1|, k requires 0 <= k < |input1| => CellOp(op, input1[k], input2[k])))
  }

  /** NOR never looks at its second operand. */
  lemma NorIgnoresSecondOperand(input1: Operand, input2: Operand, other: Operand)
    requires |input1| == |input2| == |other|
    ensures ArithmeticPhase(NOR, input1, input2) == ArithmeticPhase(NOR, input1, other)
    ensures ArithmeticPhase(NOR, input1, input2).Ok?
  {
    var a := ArithmeticPhase(NOR, input1, input2).value;
    var b := ArithmeticPhase(NOR, input1, other).value;
    assert forall k :: 0 <= k < |a| ==> a[k] == b[k];
    assert a == b;
  }

  /** ADD, MULT, AND, OR and XOR do not depend on the order of the input pointers. */
  lemma SymmetricOpcodes(op: Opcode, input1: Operand, input2: Operand)
    requires op in {ADD, MULT, AND, OR, XOR}
    requires |input1| == |input2|
    ensures ArithmeticPhase(op, input1, input2) == ArithmeticPhase(op, input2, input1)
  {
    var a := ArithmeticPhase(op, input1, input2).value;
    var b := ArithmeticPhase(op, input2, input1).value;
    assert forall k :: 0 <= k < |a| ==> a[k] == b[k];
    assert a == b;
  }

  /** SUB computes `input1 - input2`: adding `input2` back gives `input1`. */
  lemma SubThenAdd(input1: Operand, input2: Operand)
    requires |input1| == |input2|
    ensures ArithmeticPhase(ADD, ArithmeticPhase(SUB, input1, input2).value, input2) == Ok(input1)
  {
    var d := ArithmeticPhase(SUB, input1, input2).value;
    var s := ArithmeticPhase(ADD, d, input2).value;
    forall k | 0 <= k < |s|
      ensures s[k] == input1[k]
    {
      assert d[k] == CellOp(SUB, input1[k], input2[k]);
      assert s[k] == CellOp(ADD, d[k], input2[k]);
      WrapSubAdd(input1[k], input2[k]);
    }
    assert s == input1;
  }

  /** ADD computes `input1 + input2`: taking `input2` away with SUB gives
      `input1` back. */
  lemma AddThenSub(input1: Operand, input2: Operand)
    requires |input1| == |input2|
    ensures ArithmeticPhase(SUB, ArithmeticPhase(ADD, input1, input2).value, input2) == Ok(input1)
  {
    var s := ArithmeticPhase(ADD, input1, input2).value;
    var d := ArithmeticPhase(SUB, s, input2).value;
    forall k | 0 <= k < |d|
      ensures d[k] == input1[k]
    {
      assert s[k] == CellOp(ADD, input1[k], input2[k]);
      assert d[k] == CellOp(SUB, s[k], input2[k]);
      WrapAddSub(input1[k], input2[k]);
    }
    assert d == input1;
  }

  /** The bitwise opcodes, one bit at a time: a bit of the AND is clear
      where either input's bit is clear, a bit of the OR is clear where
      both are, XOR with the second input is undone by XOR with it again,
      and NOR of the first input flips every one of its 64 bits. */
  lemma BitwiseCells(x: Cell, y: Cell)
    ensures !CellOp(AND, x, y) == !x | !y
    ensures !CellOp(OR, x, y) == !x & !y
    ensures CellOp(XOR, x, y) ^ y == x
    ensures CellOp(NOR, x, y) ^ x == 0xFFFF_FFFF_FFFF_FFFF
  {
    AndCell(x, y);
    OrCell(x, y);
    XorCell(x, y);
    NorCell(x, y);
  }

  lemma AndCell(x: Cell, y: Cell)
    ensures !CellOp(AND, x, y) == !x | !y
  {
  }

  lemma OrCell(x: Cell, y: Cell)
    ensures !CellOp(OR, x, y) == !x & !y
  {
  }

  lemma XorCell(x: Cell, y: Cell)
    ensures CellOp(XOR, x, y) ^ y == x
  {
  }

  lemma NorCell(x: Cell, y: Cell)
    ensures CellOp(NOR, x, y) ^ x == 0xFFFF_FFFF_FFFF_FFFF
  {
  }

  lemma WrapAddSub(x: Cell, y: Cell)
    ensures CellOp(ADD, x, y) == x + y
    ensures CellOp(SUB, x + y, y) == (x + y) - y
    ensures (x + y) - y == x
  {
  }

  lemma WrapSubAdd(x: Cell, y: Cell)
    ensures CellOp(SUB, x, y) == x - y
    ensures CellOp(ADD, x - y, y) == (x - y) + y
    ensures (x - y) + y == x
  {
  }
}
