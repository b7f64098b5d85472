/** The instruction set: the textual form `OPCODE OPTR IPTR1 IPTR2`, its
    decoding, and the opcodes the arithmetic phase dispatches on. */
module Isa {
  import opened Results
  import opened Faults
  import opened Text

  /** The seven mnemonics the arithmetic phase knows, and any other field-0
      text, kept verbatim: the decoder does not reject unknown opcodes, the
      arithmetic phase does. */
  datatype Opcode = ADD | SUB | MULT | AND | OR | XOR | NOR | Undefined(mnemonic: string)

  /** Field 0 of an instruction line, as the dispatch compares it (case-sensitive). */
  function OpcodeOf(token: string): (op: Opcode)
    ensures op.Undefined? <==> token !in KnownMnemonics
  {
    if token == "AND" then AND
    else if token == "OR" then OR
    else if token == "XOR" then XOR
    else if token == "NOR" then NOR
    else if token == "ADD" then ADD
    else if token == "SUB" then SUB
    else if token == "MULT" then MULT
    else Undefined(token)
  }

  const KnownMnemonics: set<string> := {"ADD", "SUB", "MULT", "AND", "OR", "XOR", "NOR"}

  function Mnemonic(op: Opcode): string
  {
    match op
    case ADD => "ADD"
    case SUB => "SUB"
    case MULT => "MULT"
    case AND => "AND"
    case OR => "OR"
    case XOR => "XOR"
    case NOR => "NOR"
    case Undefined(t) => t
  }

  /** An opcode value `OpcodeOf` can produce: an undefined one never spells
      a known mnemonic. */
  predicate Canonical(op: Opcode) {
    op.Undefined? ==> op.mnemonic !in KnownMnemonics
  }

  /** Reading a field as an opcode loses nothing: its text comes back unchanged. */
  lemma MnemonicOfOpcodeOf(token: string)
    ensures Mnemonic(OpcodeOf(token)) == token
    ensures Canonical(OpcodeOf(token))
  {
  }

  /** ... and every canonical opcode is read back from its own mnemonic. */
  lemma OpcodeOfMnemonic(op: Opcode)
    requires Canonical(op)
    ensures OpcodeOf(Mnemonic(op)) == op
  {
  }

  /** One decoded instruction line: the opcode and three memory pointers.
      Pointers are arbitrary integers here; only the read and write phases
      check them against the memory. */
  datatype Instruction = Instruction(opcode: Opcode, optr: int, iptr1: int, iptr2: int)

  /** `int(fields[k])`, failing as Python does when the field is missing
      (IndexError) or is not an integer literal (ValueError). */
  function PointerField(fields: seq<string>, k: nat): (r: Result<int, SimError>)
    requires k >= 1
    ensures r.Err? <==> FieldFails(fields, k)
    ensures r.Err? ==> r.error == FieldError(fields, k)
    ensures r.Ok? ==> r.value == ParseInt(fields[k]).value
  {
    if k >= |fields| then Err(MissingField(k))
    else match ParseInt(fields[k])
      case None => Err(NotAnInteger(fields[k]))
      case Some(v) => Ok(v)
  }

  /** Whether field `k` of a split line stops the decoder. */
  predicate FieldFails(fields: seq<string>, k: nat) {
    k >= |fields| || (k >= 1 && ParseInt(fields[k]).None?)
  }

  /** The error the decoder reports for field `k`. */
  function FieldError(fields: seq<string>, k: nat): SimError {
    if k >= |fields| then MissingField(k) else NotAnInteger(fields[k])
  }

  /** Decodes one program line. Fields are evaluated in order 0, 1, 2, 3, so
      the first field that is missing or not an integer decides the error;
      fields after the fourth are never looked at. */
  function Decode(line: string): (r: Result<Instruction, SimError>)
    ensures var f := Split(line);
            r.Ok? <==> |f| >= 4 && forall k :: 1 <= k < 4 ==> ParseInt(f[k]).Some?
    ensures var f := Split(line);
            r.Ok? ==> r.value == Instruction(OpcodeOf(f[0]), ParseInt(f[1]).value,
                                             ParseInt(f[2]).value, ParseInt(f[3]).value)
  {
    var fields := Split(line);
    if |fields| == 0 then Err(MissingField(0))
    else
      var optr :- PointerField(fields, 1);
      var iptr1 :- PointerField(fields, 2);
      var iptr2 :- PointerField(fields, 3);
      Ok(Instruction(OpcodeOf(fields[0]), optr, iptr1, iptr2))
  }

  /** A line that does not decode reports its first missing or non-integer field. */
  lemma DecodeFirstError(line: string)
    ensures Decode(line).Err? ==>
              exists k :: 0 <= k < 4 && FieldFails(Split(line), k) && Decode(line).error == FieldError(Split(line), k)
                          && forall j :: 0 <= j < k ==> !FieldFails(Split(line), j)
  {
    var f := Split(line);
    if Decode(line).Err? {
      var k := if |f| == 0 then 0 else if FieldFails(f, 1) then 1 else if FieldFails(f, 2) then 2 else 3;
      assert FieldFails(f, k) && Decode(line).error == FieldError(f, k);
      assert forall j :: 0 <= j < k ==> !FieldFails(f, j);
    }
  }

  /** Whether an instruction has a textual form: its mnemonic is one field
      and, if undefined, does not spell a known mnemonic. */
  predicate Printable(ins: Instruction) {
    Canonical(ins.opcode) && IsWord(Mnemonic(ins.opcode))
  }

  /** The line `OPCODE OPTR IPTR1 IPTR2` for an instruction. */
  function Encode(ins: Instruction): string
  {
    Join([Mnemonic(ins.opcode), ShowInt(ins.optr), ShowInt(ins.iptr1), ShowInt(ins.iptr2)])
  }

  /** Decoding inverts encoding. */
  lemma DecodeEncode(ins: Instruction)
    requires Printable(ins)
    ensures Decode(Encode(ins)) == Ok(ins)
  {
    var ws := [Mnemonic(ins.opcode), ShowInt(ins.optr), ShowInt(ins.iptr1), ShowInt(ins.iptr2)];
    ParseShowInt(ins.optr);
    ParseShowInt(ins.iptr1);
    ParseShowInt(ins.iptr2);
    SplitJoin(ws);
    OpcodeOfMnemonic(ins.opcode);
  }

  /** Anything after the fourth field, separated by whitespace, is ignored. */
  lemma DecodeIgnoresTrailingFields(line: string, c: char, rest: string)
    requires |Split(line)| >= 4
    requires IsSpace(c)
    ensures Decode(line + [c] + rest) == Decode(line)
  {
    hide Split, ParseInt;
    SplitAtSpace(line, c, rest);
    var f := Split(line);
    var g := Split(line + [c] + rest);
    assert forall k :: 0 <= k < 4 ==> g[k] == f[k];
  }
}
