/** The arithmetic phase as FSimulator.py writes it, next to the one the rest
    of the model uses. The lane buffers `input1`, `input2` and `output` are
    allocated by `np.zeros` with its default float64 element type, so the
    read phase converts every operand to float64. NumPy's `bitwise_and`,
    `bitwise_or` and `bitwise_xor` reject float64 operands with a TypeError,
    and the NOR arm names `np.bitwise_nor`, which NumPy does not define (an
    AttributeError). So no bitwise instruction can complete as written,
    although the dispatch evidently intends elementwise bitwise operations
    on the integer cells. */
module Findings {
  import opened Results
  import opened Faults
  import opened Isa
  import opened Memory
  import opened Arithmetic

  /** Why the staged arithmetic phase stops. */
  datatype Raised =
    | UnsupportedOperandType(mnemonic: string)
    | NoSuchFunction(name: string)
    | UnknownOpcode(mnemonic: string)

  /** The arithmetic phase over float64 lane buffers. ADD, SUB and MULT
      compute as the integer phase does (float64 rounding is not modelled);
      the bitwise arms raise. */
  function StagedArithmetic(op: Opcode, input1: Operand, input2: Operand): (r: Result<Operand, Raised>)
    requires |input1| == |input2|
    ensures r.Ok? <==> op == ADD || op == SUB || op == MULT
    ensures r.Ok? ==> r.value == ArithmeticPhase(op, input1, input2).value
    ensures r.Err? && !op.Undefined? ==> r.error.UnsupportedOperandType? || r.error.NoSuchFunction?
  {
    match op
    case AND => Err(UnsupportedOperandType("AND"))
    case OR => Err(UnsupportedOperandType("OR"))
    case XOR => Err(UnsupportedOperandType("XOR"))
    case NOR => Err(NoSuchFunction("bitwise_nor"))
    case Undefined(t) => Err(UnknownOpcode(t))
    case _ => Ok(ArithmeticPhase(op, input1, input2).value)
  }

  predicate Bitwise(op: Opcode) {
    op == AND || op == OR || op == XOR || op == NOR
  }

  /** As written, an instruction succeeds exactly when it is ADD, SUB or
      MULT, and then agrees with the integer arithmetic phase. The integer
      phase, which the model uses, succeeds on all seven opcodes. */
  lemma StagedLosesBitwise(op: Opcode, input1: Operand, input2: Operand)
    requires |input1| == |input2|
    ensures StagedArithmetic(op, input1, input2).Ok? <==> !op.Undefined? && !Bitwise(op)
    ensures ArithmeticPhase(op, input1, input2).Ok? <==> !op.Undefined?
    ensures StagedArithmetic(op, input1, input2).Ok? ==>
              StagedArithmetic(op, input1, input2).value == ArithmeticPhase(op, input1, input2).value
  {
  }

  /** `AND 8 0 4` on `[0, 1, 2, 3]` and `[4, 5, 6, 7]`: the source raises,
      the integer phase gives `[0, 1, 2, 3]`. */
  lemma AndCounterexample()
    ensures StagedArithmetic(AND, [0, 1, 2, 3], [4, 5, 6, 7]).Err?
    ensures ArithmeticPhase(AND, [0, 1, 2, 3], [4, 5, 6, 7]) == Ok([0, 1, 2, 3])
  {
    var r := ArithmeticPhase(AND, [0, 1, 2, 3], [4, 5, 6, 7]).value;
    assert r == [r[0], r[1], r[2], r[3]];
  }
}
