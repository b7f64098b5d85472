/** The ways a simulation stops early. In the Python simulator each of these
    ends the process (an `exit()` after a message, or an uncaught
    exception); here they are values the caller receives. */
module Faults {

  datatype SimError =
      /** `set_program`: the program length is not a multiple of the scale factor. */
    | ProgramSizeNotMultiple(size: nat, scaleFactor: int)
      /** `program[pc + i]` is past the end of the program (an IndexError). */
    | MissingInstruction(index: int)
      /** `instr[k]` on a line with fewer than `k + 1` fields (an IndexError). */
    | MissingField(field: nat)
      /** `int(token)` on a pointer field that is not an integer literal (a ValueError). */
    | NotAnInteger(token: string)
      /** `read_phase`: one of the two input pointers is out of bounds. */
    | BadInputOperands(ptr1: int, ptr2: int)
      /** `arithmetic_phase`: the default arm of the opcode dispatch. */
    | UndefinedInstruction(mnemonic: string)
      /** `write_phase`: the output pointer is out of bounds. */
    | BadOutputOperand(ptr: int)
}
