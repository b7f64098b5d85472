# FunctionalSimulator cycle engine, modelled in Dafny

`FunctionalSimulator` (FSimulator.py) simulates a hypothetical machine with a
flat data memory of `mem_size` integer cells and a program of text lines
`OPCODE OPTR IPTR1 IPTR2`. `run_program` resets the program counter and
repeats cycles until the counter reaches the end of the program. A cycle with
`scale_factor` lanes has four steps:
- it decodes `scale_factor` consecutive lines, one per lane;
- the read phase then copies, for every lane, two `operand_size`-cell input
  operands out of memory;
- the arithmetic phase computes, for every lane, an elementwise
  ADD/SUB/MULT/AND/OR/XOR or the single-operand NOR;
- the write phase stores, for every lane, the output operand and advances
  the program counter by one.

Finally the cycle counter goes up by one. Every failure (a bad pointer, an
unknown opcode, a malformed line, a program that does not fill whole cycles)
ends the run.

The model has these modules:
- `Memory` (memory.dfy): cells are 64-bit words over a contiguous store.
  The source's memory has `dtype=int`, the C `long`, which is 64 bits on
  64-bit Linux and macOS; the model assumes that platform.
- `Text` (text.dfy): Python's `str.split()` and `int()` as the decoder uses
  them.
- `Isa` (isa.dfy): opcodes, instruction decoding and its inverse.
- `Arithmetic` (arithmetic.dfy): the arithmetic phase.
- `Simulator` (simulator.dfy): the machine and its constructor; `set_memory`,
  `set_program` and `reset`; the three phases, one cycle and the run, both as
  a recursive definition and as a loop.
- `Outcome` (outcome.dfy): exactly when a run completes and when it
  stops with an error, for every program, aliasing or not.
- `Scaling` (scaling.dfy): a serial reference semantics, and a proof that the
  scale factor does not change the final memory of a program without
  aliasing inside a cycle.
- `Samples` (samples.dfy): worked single-instruction examples.
- `Findings` (findings.dfy): the arithmetic phase as written over float64
  lane buffers.
- `Results`, `Faults` and `DivMod`: support modules.

Every `exit()` in the source becomes an `Err` value naming the failure. The
failures are the `SimError` constructors in faults.dfy.

## Model

| member | source | states |
|---|---|---|
| Simulator.New | FSimulator.py:24-46 | A new simulator has `mem_size` zero cells, the given scale factor and operand size, an empty program, and both counters at zero. |
| Simulator.SetMemory | FSimulator.py:48-53 | The memory becomes exactly the given image; configuration, program and counters are untouched. |
| Simulator.SetProgram | FSimulator.py:55-65 | Loading succeeds exactly when the program length is a multiple of the scale factor, and then installs the program and changes nothing else. Otherwise the failure reports the length and the scale factor. |
| Simulator.Reset | FSimulator.py:67-73 | Both counters become zero; memory, program and configuration are kept. |
| Simulator.ReadPhase | FSimulator.py:128-139 | Fails, naming both pointers, exactly when either input range leaves the memory. Otherwise both operands are `operand_size` cells long, and cell `k` of each equals the memory cell at its pointer plus `k`. |
| Arithmetic.ArithmeticPhase | FSimulator.py:141-170 | Succeeds exactly for the seven known opcodes. Otherwise it fails, naming the opcode text. On success the output has the operands' length and each cell is the opcode's operation on the two input cells at the same index. |
| Arithmetic.NorIgnoresSecondOperand | FSimulator.py:156-158 | NOR always succeeds, and its output does not depend on the second operand. |
| Arithmetic.SymmetricOpcodes | FSimulator.py:147-167 | ADD, MULT, AND, OR and XOR give the same output with the operands swapped. |
| Arithmetic.SubThenAdd | FSimulator.py:159-164 | SUB computes `input1 - input2` modulo 2^64: adding `input2` back with ADD returns `input1`. |
| Arithmetic.AddThenSub | FSimulator.py:159-164 | ADD computes `input1 + input2` modulo 2^64: taking `input2` away with SUB returns `input1`. |
| Arithmetic.BitwiseCells | FSimulator.py:146-158 | The per-cell dispatch, bit by bit. A bit of the AND is clear exactly where a bit of either input is clear, and a bit of the OR exactly where both are. XOR with the second input is undone by XORing it again. NOR flips all 64 bits of the first input. |
| Simulator.WritePhase | FSimulator.py:172-184 | Fails, naming the pointer, exactly when the output range leaves the memory. Otherwise the output range holds the output, every other cell is unchanged, the memory length is kept, and the program counter advances by exactly one. |
| Memory.Store | FSimulator.py:181 | The slice assignment keeps the memory length; cells inside the range take the stored values and the rest keep theirs. |
| Memory.ReadAfterStore | FSimulator.py:181 | Reading back the range just stored gives the stored operand. |
| Memory.StoreFrame | FSimulator.py:181 | A store leaves every operand range disjoint from it unchanged. |
| Isa.OpcodeOf | FSimulator.py:146-168 | Field 0 names one of the seven dispatched opcodes exactly when it is one of the seven mnemonics, compared case-sensitively. |
| Isa.MnemonicOfOpcodeOf | FSimulator.py:108 | Keeping field 0 as an opcode loses nothing: its text comes back unchanged. |
| Isa.OpcodeOfMnemonic | FSimulator.py:108 | Every opcode the decoder can produce is recovered from its own text. |
| Isa.PointerField | FSimulator.py:110-112 | `int(instr[k])` fails exactly when field `k` is missing (IndexError) or is not an integer literal (ValueError). Otherwise it gives the field's integer value. |
| Isa.Decode | FSimulator.py:104-112 | A line decodes exactly when it splits into at least four fields and fields 1 to 3 are integer literals. The instruction is then field 0 as opcode and the values of fields 1, 2, 3 as output and input pointers; an unknown opcode is not a decode failure. |
| Isa.DecodeFirstError | FSimulator.py:104-112 | A line that does not decode reports its first failing field, in the order 0, 1, 2, 3 that Python evaluates them. |
| Isa.DecodeEncode | FSimulator.py:103-112 | Take an instruction whose opcode text is a single field and, if the opcode is unknown, not one of the seven mnemonics. Decoding the line `OPCODE OPTR IPTR1 IPTR2` written for it gives that instruction back. |
| Isa.DecodeIgnoresTrailingFields | FSimulator.py:104-112 | Fields after the fourth, separated by whitespace, never change the decoded instruction. |
| Text.WordLength | FSimulator.py:104 | The first field of `split()` ends at the end of the text or at a whitespace character. |
| Text.WordLengthNoSpace | FSimulator.py:104 | The first field holds no whitespace. |
| Text.Split | FSimulator.py:104 | `split()` returns no fields exactly when the line is empty or all whitespace; `instr[0]` then raises IndexError. |
| Text.SplitFieldsAreWords | FSimulator.py:104 | Every field `split()` returns is non-empty and free of whitespace. |
| Text.SplitAtSpace | FSimulator.py:104 | Splitting text at a whitespace character splits the two sides independently. |
| Text.SplitWord | FSimulator.py:104 | A single field splits into itself. |
| Text.SplitJoin | FSimulator.py:104 | `split()` undoes joining fields with single spaces. |
| Text.DigitGroupShape | FSimulator.py:110-112 | The digits `int()` accepts start with a digit, hold only digits and underscores, and never have two underscores in a row. |
| Text.ShowNat | FSimulator.py:110-112 | The decimal form of a natural number is a non-empty string of digits. |
| Text.DigitsValueShowNat | FSimulator.py:110-112 | Reading back the decimal digits of `n` gives `n`. |
| Text.ParseInt | FSimulator.py:110-112 | `int()` of a field succeeds exactly when the field is a digit group, optionally after a `+` or `-` sign. A negative result needs the `-` sign. |
| Text.ParseShowInt | FSimulator.py:110-112 | `int(str(n)) == n` for every integer `n` (without CPython's limit on the number of digits), and `str(n)` is a single field. |
| Simulator.DecodeAll | FSimulator.py:101-112 | A list of lines decodes exactly when every line does; then instruction `i` is the decoding of line `i`. |
| Simulator.DecodeAllFirstError | FSimulator.py:101-112 | A failing list reports the error of some line, and every earlier line decodes. Conversely, when line `i` is the first that fails, the list reports line `i`'s error. |
| Simulator.DecodeAllErrorAt | FSimulator.py:101-112 | When line `i` is the first that fails to decode, the list reports line `i`'s error. |
| Simulator.DecodeLanes | FSimulator.py:101-104 | A cycle's decode loop decodes lines `pc` to `pc + scale_factor - 1` when they all exist, and fails when the program runs out first. |
| Simulator.DecodeLanesFirstError | FSimulator.py:101-112 | A cycle whose window has a line that does not decode reports the first such line's error, even when the window also runs past the end of the program. |
| Simulator.DecodeLanesMissing | FSimulator.py:101-104 | When every line of the window that exists decodes but the window runs past the end of the program, the cycle reports the first missing line: `len(program)`, or `pc` when `pc` is already past the end. |
| Simulator.DecodeLanesLines | FSimulator.py:101-112 | A cycle decodes exactly when its lines exist and each decodes; lane `i` then holds the decoding of line `pc + i`. |
| Simulator.ReadLane | FSimulator.py:115-116 | A lane's read succeeds exactly when both of its input ranges lie in memory, and otherwise names both input pointers. It keeps the instruction and copies both operands from the memory at the start of the cycle. |
| Simulator.ReadLanes | FSimulator.py:114-116 | The read loop succeeds exactly when every lane's read does, and lane `i` holds lane `i`'s read. |
| Simulator.ReadLanesFirstError | FSimulator.py:114-116 | A failing read loop fails at some lane whose input ranges leave the memory, with every earlier lane readable. Conversely, when lane `i` is the first unreadable lane, the loop reports `i`'s two input pointers. |
| Simulator.ComputeLane | FSimulator.py:119-120 | A lane's arithmetic fails exactly when its opcode is unknown, and then reports that opcode's mnemonic. |
| Simulator.ComputeLanes | FSimulator.py:118-120 | The arithmetic loop succeeds exactly when no lane has an unknown opcode. Lane `i` then holds the arithmetic phase's output for lane `i`'s operands, aimed at its output pointer. |
| Simulator.ComputeLanesFirstError | FSimulator.py:118-120 | A failing arithmetic loop fails at some lane with an unknown opcode, with every earlier opcode known. Conversely, when lane `i` is the first with an unknown opcode, the loop reports `i`'s mnemonic. |
| Simulator.LaneResult | FSimulator.py:114-120 | What a lane would write goes to its output pointer and is `operand_size` cells long. |
| Simulator.Plan | FSimulator.py:114-120 | The read and arithmetic loops succeed exactly when every lane's reads are in range and its opcode is known. Every lane's output is then computed from the memory at the start of the cycle, whatever the other lanes do. |
| Simulator.WriteLanes | FSimulator.py:122-124 | The write loop succeeds exactly when every output range lies in memory. It advances the program counter by the number of lanes and changes no cell outside the written ranges. Every cell of a lane's range that no later lane writes holds that lane's output, because the last writer wins. |
| Simulator.WriteLanesFirstError | FSimulator.py:122-124 | A failing write loop fails at some lane whose output range leaves the memory, with every earlier output range inside it. Conversely, when lane `i` is the first such lane, the loop reports `i`'s output pointer, after the earlier lanes have written. |
| Simulator.Execute | FSimulator.py:114-124 | The three phases succeed exactly when every lane's pointers are in range and its opcode is known. They then advance the program counter by the number of lanes and keep the cycle counter, configuration, program and memory length. |
| Simulator.Cycle | FSimulator.py:98-126 | A cycle succeeds exactly when its lines decode and every lane can run. It then advances the program counter by `scale_factor` and the cycle counter by one. |
| Simulator.CycleRunsGroup | FSimulator.py:100-126 | A cycle whose lines decode runs the three phases on exactly those instructions and then counts itself. |
| Simulator.CyclesNeededDivides | FSimulator.py:96-126 | The remaining instructions fill whole cycles exactly when `scale_factor` divides their count, and then there are count / `scale_factor` cycles. |
| Simulator.Cycles | FSimulator.py:96-126 | When the loop finishes, the remaining instructions filled whole cycles, the program counter equals the program length, and the cycle counter grew by the number of cycles. Configuration, program and memory length are kept. |
| Simulator.Run | FSimulator.py:75-126 | A successful run implies a program length that is a multiple of `scale_factor`. The program counter ends at the program length, and the cycle counter, which the run does not reset, grows by exactly length / `scale_factor`. |
| Outcome.ExecuteFirstError | FSimulator.py:114-124 | A failing cycle reports the first lane with an input range outside the memory, whatever the other lanes' opcodes and output pointers. If every lane reads, it reports the first unknown opcode, whatever the output pointers. Only if every lane reads and computes does it report the first output range outside the memory. |
| Outcome.CycleFirstError | FSimulator.py:98-124 | A cycle reports the first line of its window that does not decode, or else the first missing line, before any lane touches the memory. Once the window decodes, its error is the three phases' error. |
| Outcome.CyclesNeedDecode | FSimulator.py:96-112 | A loop that completes from `pc` has decoded every line from `pc` to the end. |
| Outcome.RunNeedsDecode | FSimulator.py:94-112 | A run that completes has decoded every line of the program. |
| Outcome.LockstepSucceeds | FSimulator.py:96-126 | The cycle loop over decoded instructions completes exactly when they fill whole cycles and every instruction has its input and output ranges in memory and a known opcode. |
| Outcome.CyclesOutcome | FSimulator.py:96-126 | From any program counter of a program that decodes, the loop completes exactly when the remaining lines fill whole cycles and every remaining instruction is admissible, with or without aliasing between lanes. |
| Outcome.RunOutcome | FSimulator.py:94-126 | A decoded program runs to completion exactly when its length is a multiple of `scale_factor` and every instruction's pointers are in range and its opcode is known. Otherwise the run stops with an error. |
| Outcome.RunSucceeds | FSimulator.py:94-170 | `run_program` completes exactly when every line decodes, the program fills whole cycles, and every instruction is admissible. So it stops on a missing field or non-integer pointer, an out-of-range read or write pointer, an unknown opcode, or a short last cycle. |
| Simulator.RunProgram | FSimulator.py:94-126 | The `while` loop keeps the program counter a multiple of `scale_factor` at every cycle boundary and ends exactly as `Run` does. |
| Scaling.Serial | FSimulator.py:17-21 | The one-at-a-time reference run succeeds exactly when every instruction's pointers are in range and its opcode is known, and keeps the memory length. |
| Scaling.SerialAppend | FSimulator.py:17-21 | Running two instruction lists one after the other is running their concatenation. |
| Scaling.StoreKeepsReads | FSimulator.py:133-139 | A store disjoint from an instruction's input ranges does not change what that instruction reads. |
| Scaling.WriteLanesIsSerial | FSimulator.py:114-124 | Suppose no lane writes what a later lane reads. Then writing outputs computed from the start-of-cycle memory, in lane order, ends where the serial run ends, and fails exactly when it does. |
| Scaling.ExecuteIsSerial | FSimulator.py:114-124 | Without such aliasing, one cycle's three phases succeed exactly when the serial run of its instructions does, and leave the same memory. |
| Scaling.CycleIsSerial | FSimulator.py:98-126 | The same for a whole cycle, from the decoded lines on. |
| Scaling.SingleLaneNeverAliases | FSimulator.py:17-21 | With one lane per cycle there is nothing to alias. |
| Scaling.GroupDecoded | FSimulator.py:101-112 | In a program that decodes completely, a cycle at `pc` decodes to the slice of the decoded program starting at `pc`. |
| Scaling.NoAliasingSplit | FSimulator.py:114-124 | The first cycle of a non-aliasing run does not alias, and neither do the cycles after it. |
| Scaling.CyclesAreLockstep | FSimulator.py:96-126 | Once the program has decoded, the cycle loop ends where the cycle loop over the decoded instructions ends, and fails exactly when it does. |
| Scaling.Lockstep | FSimulator.py:96-124 | The cycle loop over decoded instructions succeeds only when they fill whole cycles, and it keeps the memory length. |
| Scaling.LockstepIsSerial | FSimulator.py:114-126 | Without aliasing inside any cycle, the decoded cycle loop succeeds exactly when the instructions fill whole cycles and the serial run succeeds. It then ends with the serial run's memory. |
| Scaling.CyclesAreSerial | FSimulator.py:96-126 | The same for the cycle loop itself, from any cycle boundary. |
| Scaling.ScaleInvariance | FSimulator.py:17-21 | Take a program that decodes completely and has no aliasing inside any cycle. The run with `scale_factor` k succeeds exactly when the one-lane run succeeds and k divides the program length, and both leave the same memory. |
| Samples.OneLane | FSimulator.py:114-124 | A one-lane cycle body whose pointers are in range writes its computed output at its output pointer. |
| Samples.WrittenIsComputed | FSimulator.py:114-124 | An instruction over the seeded twelve-cell memory writes the arithmetic phase's output for the operands at its input pointers. |
| Samples.FourCells | FSimulator.py:146-167 | On four-cell operands the output is the four cellwise results. |
| Samples.AddCase | FSimulator.py:159-161 | `ADD 8 0 4` over `[0,1,2,3]` and `[4,5,6,7]` writes `[4,6,8,10]`. |
| Samples.SubCase | FSimulator.py:162-164 | `SUB 8 4 0` writes `[4,4,4,4]`. |
| Samples.MultCase | FSimulator.py:165-167 | `MULT 8 0 4` writes `[0,5,12,21]`. |
| Samples.AndCase | FSimulator.py:147-149 | `AND 8 0 4` writes `[0,1,2,3]`. |
| Samples.NorCase | FSimulator.py:156-158 | `NOR 8 0 4` writes the 64-bit NOT of `[0,1,2,3]`, that is -1, -2, -3, -4 as int64. |
| Findings.StagedArithmetic | FSimulator.py:141-170 | The arithmetic phase over float64 lane buffers completes exactly for ADD, SUB and MULT, with the integer phase's output. A known bitwise opcode raises TypeError (AND, OR, XOR) or AttributeError (NOR). |
| Findings.StagedLosesBitwise | FSimulator.py:141-170 | Over float64 lane buffers, an instruction completes exactly when it is ADD, SUB or MULT. The integer arithmetic phase completes for all seven opcodes. |
| Findings.AndCounterexample | FSimulator.py:147-149 | `AND` on `[0,1,2,3]` and `[4,5,6,7]` raises as written, and gives `[0,1,2,3]` in the integer phase. |

## Left out

- Console output (`print`, including `FunctionalSimulator.print` and the
  messages before each `exit()`) is left out: it is output only. Process
  termination becomes an `Err` result.
- run.py (option parsing, reading `program.txt`, seeding the memory) is not
  part of this model.
- Simulator.SetMemory requires an image as long as the memory. The source
  accepts any array, and `mem_size` keeps its constructor value. The model
  has no separate `mem_size`; it uses the memory's length.
- Simulator.SetMemory copies the image. `self.memory = mem` keeps a
  reference to the caller's array instead, so every later write phase also
  changes that array, and changes the caller makes reach the simulator. The
  model's memory is a value, and sharing is not modelled.
- Simulator.New and the other members take a scale factor of at least one.
  With zero, the constructor succeeds (`np.zeros` accepts a zero dimension)
  but `set_program` raises ZeroDivisionError. A negative value already
  makes the constructor raise ValueError, because `np.zeros` rejects a
  negative dimension.
- Simulator.New takes `mem_size` and `operand_size` as natural numbers. A
  negative `mem_size` makes `np.zeros(mem_size, dtype=int)` raise
  ValueError, and a negative `operand_size` does the same in
  `np.zeros((operand_size, scale_factor))`. The constructor's default
  arguments (1, 5000, 100) are not modelled separately; they are
  `New(1, 5000, 100)`.
- Errors carry no machine state. A run that fails mid-cycle does not report
  the writes made by earlier lanes of that cycle. The source ends the
  process there; only a caller that catches `SystemExit` would see those
  writes, through the shared memory array.
- The lane buffers `input1`, `input2` and `output` are kept out of the
  machine state. Each cycle recomputes them, and nothing reads them across
  cycles.
- Float64 staging: the model's lane buffers have the memory's 64-bit
  integer type. ADD, SUB and MULT therefore wrap modulo 2^64. In the source
  they are float64 operations, exact only below 2^53, that are truncated
  back into int64 on write-back. See "## Findings" for what float64 does to
  the bitwise opcodes.
- Isa.Decode follows the code, not a stricter reading of the format. Lines
  with more than four fields decode; they keep their first four. An unknown
  opcode is not a decode error either: the code keeps field 0 as text, and
  only the arithmetic phase rejects it, after every lane of the cycle has
  read its operands.
- NOR is the bitwise NOT of the first input. The code names `np.bitwise_nor`
  with one argument and a comment saying it is single-operand.
- Text.ParseInt accepts ASCII digits only. Python's `int()` also accepts
  other Unicode decimal digits, which the model leaves out.
- Text.ParseInt has no limit on the number of digits. CPython 3.11 and
  later, and the 2022 security releases of 3.7 to 3.10, reject a decimal
  string of more than 4300 digits with ValueError by default. The limit
  depends on the interpreter and its settings. So a pointer field that
  long is `NotAnInteger` in the source but decodes in the model, and
  Text.ParseShowInt holds only below the limit there.
- Arithmetic.CellOp states MULT only as the product modulo 2^64. It has no
  bit-level or inverse property; Samples.MultCase works one case through.
- `switch.Switch` is not part of this model; the dispatch is a `match` with
  a default failure arm.

## Findings

| source | as written | input that shows it | evidently intended | confidence | as-written member | corrected member |
|---|---|---|---|---|---|---|
| FSimulator.py:147-158 | The lane buffers are float64: `np.zeros` at lines 42-44 uses its default type. `np.bitwise_and`, `bitwise_or` and `bitwise_xor` raise TypeError on float64 operands, and `np.bitwise_nor` does not exist (AttributeError). So no AND, OR, XOR or NOR instruction can complete. | `AND 8 0 4` with `[0,1,2,3]` at 0 and `[4,5,6,7]` at 4 | elementwise bitwise operations on the integer cells, giving `[0,1,2,3]` | high (not executed) | Findings.StagedArithmetic, Findings.AndCounterexample | Arithmetic.ArithmeticPhase, Samples.AndCase |
