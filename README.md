# A verified model of the golden-model instruction simulator

The golden model is a small C program. It reads a test-case file of 16-bit
instructions, one per line as four hex digits, and executes them in order
on a register file of sixteen 16-bit registers, r0 to r15. For every
instruction it writes a trace line to the output file. The line holds the
instruction word (`%04hx`), the destination register (`%x`) and the value
written to it (`%04hx`, or `0000` when the destination is r0).

An instruction word has four 4-bit fields: opcode, destination, source 1
and source 2. The sixteen opcodes are MOV, ADD, SUB, AND, OR, XOR, SLL, SRL,
SRA, ADDI, ANDI, ORI, XORI, SLLI, SRLI and SRAI. In the immediate forms the
source-2 field is sign-extended to 16 bits. Every shift uses only the low
four bits of its amount. Register r0 is never written.

The Dafny modules follow the program's structure:

- `Bits` (`bits.dfy`): 16-bit words as `bv16`, C `int` values as `bv32`,
  integer promotion, and the three shifts.
- `Faults` (`faults.dfy`): the two ways a run stops early, unknown opcode
  and malformed line, and a `Result` type that carries them.
- `Decode` (`decode.dfy`): the opcode table and dispatch, the field split
  and the 4-bit sign extension.
- `Trace` (`trace.dfy`): the text formats. This covers `strtol(line, NULL,
  16)` as the program applies it to an input line, and the trace record
  format.
- `Execute` (`execute.dfy`): `process_instr` itself. `Step` is its meaning
  on a register-file value. `ProcessInstr` does the same in place on a
  register-file array and is proved to agree with `Step`.
- `Reference` (`reference.dfy`): an independent reading of every opcode as
  C evaluates it. The `int16_t` operands are promoted to 32-bit `int`, the
  operation is done on 32 bits, and the store back into `int16_t` keeps the
  low 16 bits, as gcc and clang implement the conversion. The module proves
  that the 16-bit ALU agrees with this reading for every opcode and every
  operand value.
- `Driver` (`driver.dfy`): `main`'s register-file initialisation and its
  per-line loop. `Run` is the meaning of a whole input. `GoldenRun` is the
  loop over an array and is proved to compute `Run`.

The only check the program makes on an input line is its length: five
bytes, "4 bytes for instr + 1 byte for new line char"
(`golden_model.c:184-185`). The line is then handed to `strtol`, whatever
its five bytes are. `strtol` skips white space, accepts a sign and a `0x`
prefix, and stops at the first non-digit. So `zzzz\n` reads as instruction 0, `12zz\n` as 0x0012, and
`-001\n` as 0xFFFF. The model reads every five-byte line the way `strtol`
does (`Trace.StrtolHex`). `Trace.StrtolOfInstrLine` proves that on a
well-formed line this is the plain reading of the four digits.

C leaves `>>` on a negative `int` implementation-defined. The reference
reading of SRA and SRAI takes the arithmetic shift that the usual compilers
implement (`Reference.ShiftRightSigned32`).

## Model

| member | source | states |
|---|---|---|
| Decode.Code | golden_model.c:13-30 | each mnemonic's opcode value is the one the enum assigns it, below 16 |
| Decode.OpcodeOf | golden_model.c:50-137 | the dispatch selects an operation exactly when the opcode value is below 16, and that operation's code is the value; any other value is the unknown-opcode fault carrying that value |
| Decode.OpcodeOfCode | golden_model.c:13-30 | no two opcodes share a value: each opcode's code dispatches back to that opcode |
| Decode.DecodeFields | golden_model.c:39-42 | the four fields of an instruction reassemble into the instruction; the opcode field is below 16 |
| Decode.DecodeEncode | golden_model.c:39-42 | splitting an assembled word gives back the fields it was built from (the other half of the round trip) |
| Decode.SignExtend4 | golden_model.c:43-44 | the immediate keeps the field as its low four bits; it equals the field when the field is below 8 and field − 16 otherwise; its sign bit is set exactly when the field is 8 or more |
| Bits.JoinNibbles | golden_model.c:39-42 | the nibble at bits 12, 8, 4 and 0 of the joined word is the corresponding argument |
| Bits.JoinNibblesOfNibbles | golden_model.c:39-42 | a word is recovered from its four nibbles |
| Bits.Promote | golden_model.c:57 | definition of C's integer promotion of an `int16_t` to `int`; its properties are in `Bits.PromoteHighHalf` and `Reference.PromoteStoredAs` |
| Bits.PromoteHighHalf | golden_model.c:57 | promoting an `int16_t` to `int` fills bits 16 to 31 with copies of the sign bit |
| Bits.ShiftAmount | golden_model.c:82 | the shift amount `& 0xF` is below 16, and zero exactly when the low four bits are |
| Bits.ShiftLeft | golden_model.c:82 | a left shift by n leaves the low n bits zero |
| Bits.ShiftRightLogical | golden_model.c:86-89 | the `uint16_t` shift right by n is at most 0xFFFF >> n, so a nonzero shift clears the sign bit |
| Bits.ShiftRightArithmetic | golden_model.c:92-95 | the signed shift is the logical shift for a non-negative word and the logical shift with the top n bits set for a negative one; the sign bit is kept |
| Trace.ToLowerHex | golden_model.c:36 | an upper-case digit `A` to `F` maps to the lower-case digit at the same offset from `a`, and a lower-case digit maps to itself; the result is always a lower-case digit |
| Trace.HexDigit | golden_model.c:143 | the digit printed for a nibble is a lower-case hex digit |
| Trace.DigitValue | golden_model.c:36 | the value `strtol` gives a hex digit of either case is the nibble whose printed digit is that digit in lower case |
| Trace.DigitValueOfHexDigit | golden_model.c:36 | reading back a printed digit gives the nibble |
| Trace.Hex4 | golden_model.c:143 | `%04hx` prints exactly four lower-case hex digits |
| Trace.ParseHex4 | golden_model.c:36 | four hex digits of either case read as the word whose `%04hx` is those digits in lower case |
| Trace.ParseHex4OfHex4 | golden_model.c:36 | printing a word with `%04hx` and reading it back gives the word |
| Trace.SkipSpaces | golden_model.c:36 | `strtol` skips exactly the leading white space: everything skipped is white space and the next character is not |
| Trace.SkipHexPrefix | golden_model.c:36 | a `0x` or `0X` at the position is skipped, and nothing else ever is |
| Trace.HexRunOfHex4 | golden_model.c:36 | four hex digits followed by the end or by a non-digit read as their plain value, whatever was accumulated before them (only the low 16 bits survive) |
| Trace.HexRun | golden_model.c:36 | definition of `strtol`'s digit loop, the low 16 bits kept; its properties are in `Trace.HexRunOfHex4` and `Trace.HexRunAgrees` |
| Trace.StrtolHex | golden_model.c:36 | definition of `strtol(line, NULL, 16)` stored into `int16_t`; its properties are in the `Trace.Strtol*` lemmas |
| Trace.StrtolOfInstrLine | golden_model.c:36 | on a line of four hex digits and a newline, `strtol` reads exactly the four digits |
| Trace.StrtolKeepsLowDigits | golden_model.c:36 | a five-byte line of five hex digits keeps only the last four, because the conversion to `int16_t` drops the rest |
| Trace.StrtolOfHex4 | golden_model.c:36 | a word printed as `%04hx` with a newline reads back as that word |
| Trace.StrtolStopsAtNonDigit | golden_model.c:36 | worked examples: `zzzz\n` (no digits) reads as 0 and `12zz\n` reads as 0x0012 |
| Trace.StrtolNegates | golden_model.c:36 | worked example: `-001\n` reads as 0xFFFF |
| Trace.HexRunAgrees | golden_model.c:36 | the digit run read from a position depends only on the characters from that position on |
| Trace.StrtolMinusNegates | golden_model.c:36 | with a 64-bit `long`, for every line of at most 15 characters whose first non-blank character is `-`, the reading is the negation modulo 2^16 of the same line with `+` there |
| Trace.StrtolSkipsPrefixes | golden_model.c:36 | worked examples: `0x1f\n` reads as 0x001F and `  7a\n` as 0x007A |
| Trace.FormatRecord | golden_model.c:143-148 | a trace line is ten characters: nine lower-case hex digits and a newline |
| Trace.FormatRecordFields | golden_model.c:143-148 | the instruction, the destination and the reported value can each be read back from their columns of the line; the value columns are `0000` when the destination is r0 and the computed value's `%04hx` otherwise |
| Trace.FormatRecordInjective | golden_model.c:143-148 | two records print the same line exactly when they agree on instruction, destination and reported value |
| Execute.Alu | golden_model.c:50-137 | definition of the sixteen cases of the switch; its properties are in `Reference.AluMatchesC` and the `Execute` shift lemmas |
| Execute.Compute | golden_model.c:50-137 | definition of the operand fetch and computation; its properties are in `Execute.StepEffect` and `Reference.ComputeMatchesC` |
| Execute.Step | golden_model.c:39-148 | definition of one instruction on a register-file value; its properties are in `Execute.StepNeverFaults`, `Execute.StepEffect` and `Execute.StepKeepsZeroRegister` |
| Execute.WriteBack | golden_model.c:139 | a nonzero destination receives the value; destination r0 leaves the file unchanged; every other register is unchanged |
| Execute.StepNeverFaults | golden_model.c:133-136 | every instruction word decodes to one of the sixteen operations, so the default branch is never taken |
| Execute.StepEffect | golden_model.c:39-148 | one instruction writes the computed value into its destination unless that is r0; every other register is unchanged; the record names the instruction, destination and value |
| Execute.StepKeepsZeroRegister | golden_model.c:139 | r0 stays zero across any instruction |
| Execute.ShiftAmountIsLowBits | golden_model.c:81-131 | every shift opcode's result depends on its second operand only through the low four bits; for the immediate forms the amount is the raw 4-bit field |
| Execute.LogicalShiftClearsSign | golden_model.c:86-90 | SRL and SRLI by a nonzero amount give a result with the sign bit clear |
| Execute.ArithmeticShiftKeepsSign | golden_model.c:92-95 | SRA and SRAI keep the sign bit of the shifted register |
| Execute.ReadAfterWrite | golden_model.c:51-53 | a MOV from the register the previous instruction wrote copies the value it wrote |
| Execute.MovIdempotent | golden_model.c:51-53 | a MOV whose destination is not its source, run twice, leaves the same registers and record as once |
| Execute.ProcessInstr | golden_model.c:32-149 | in place on the register array: the instruction `strtol` reads from the line is executed; the array ends as `Step` says and the returned line is that step's formatted record |
| Reference.CEvaluate | golden_model.c:50-131 | definition of each case's C expression evaluated on 32-bit `int`; its properties are in the `Reference.*MatchesC` lemmas |
| Reference.ShiftRightSigned32 | golden_model.c:93 | C's signed shift of an `int` keeps its sign bit |
| Reference.PromoteStoredAs | golden_model.c:57 | promoting an `int16_t` and storing it back gives the same value |
| Reference.StoredAdd | golden_model.c:57 | the low half of a 32-bit sum depends only on the operands' low halves |
| Reference.StoredSub | golden_model.c:62 | the low half of a 32-bit difference depends only on the operands' low halves |
| Reference.StoredAnd | golden_model.c:67 | the low half of a 32-bit AND is the AND of the low halves |
| Reference.StoredOr | golden_model.c:72 | the low half of a 32-bit OR is the OR of the low halves |
| Reference.StoredXor | golden_model.c:77 | the low half of a 32-bit XOR is the XOR of the low halves |
| Reference.StoredShiftLeft | golden_model.c:82 | the two's-complement 32-bit left shift of the promoted operand, stored back, is the 16-bit left shift by the low four bits of the amount |
| Reference.StoredShiftRightLogical | golden_model.c:88 | C's shift of the operand cast to `uint16_t`, stored back, is the 16-bit logical shift |
| Reference.StoredShiftRightArithmetic | golden_model.c:93 | C's signed shift of the promoted operand, stored back, is the 16-bit arithmetic shift, for negative and non-negative words alike |
| Reference.MovMatchesC | golden_model.c:51-54 | MOV writes what `dest_value = reg_file[src1]` stores |
| Reference.AddMatchesC | golden_model.c:56-59 | ADD writes what the C `int` sum stores |
| Reference.SubMatchesC | golden_model.c:61-64 | SUB writes what the C `int` difference stores |
| Reference.AndMatchesC | golden_model.c:66-69 | AND writes what the C expression stores |
| Reference.OrMatchesC | golden_model.c:71-74 | OR writes what the C expression stores |
| Reference.XorMatchesC | golden_model.c:76-79 | XOR writes what the C expression stores |
| Reference.SllMatchesC | golden_model.c:81-84 | SLL writes what the C expression stores |
| Reference.SrlMatchesC | golden_model.c:86-90 | SRL writes what the C expression stores |
| Reference.SraMatchesC | golden_model.c:92-95 | SRA writes what the C expression stores |
| Reference.AddiMatchesC | golden_model.c:97-100 | ADDI writes what the C sum with the sign-extended immediate stores |
| Reference.AndiMatchesC | golden_model.c:102-105 | ANDI writes what the C expression stores |
| Reference.OriMatchesC | golden_model.c:107-110 | ORI writes what the C expression stores |
| Reference.XoriMatchesC | golden_model.c:112-115 | XORI writes what the C expression stores |
| Reference.SlliMatchesC | golden_model.c:117-120 | SLLI writes what the C expression stores |
| Reference.SrliMatchesC | golden_model.c:122-126 | SRLI writes what the C expression stores |
| Reference.SraiMatchesC | golden_model.c:128-131 | SRAI writes what the C expression stores |
| Reference.AluMatchesC | golden_model.c:50-137 | for every opcode and all operand values, the 16-bit ALU's result is the low 16 bits of the C evaluation |
| Reference.ComputeMatchesC | golden_model.c:50-139 | the value an instruction computes from the registers it reads is what its C expression stores into `dest_value` |
| Reference.AddOverflowWraps | golden_model.c:56-59 | 0x7FFF + 0x0001 is 32768 as a C `int` and is stored as 0x8000, the most negative 16-bit value, without a trap |
| Reference.ArithmeticShiftOfNegative | golden_model.c:92-95 | 0x8000 shifted right arithmetically by 4 is 0xF800 in both readings |
| Reference.ArithmeticShiftImmediateAmount | golden_model.c:128-131 | SRAI with the field 0xF (immediate −1) shifts by 15, so 0x8000 becomes 0xFFFF |
| Driver.Run | golden_model.c:183-189 | definition of the loop over a whole input from all-zero registers; its properties are in the `Driver.Run*` lemmas and `Driver.GoldenRun` |
| Driver.Feed | golden_model.c:183-189 | once stopped, a run stays stopped with nothing changed; it keeps going exactly when the line is five bytes; output only grows, by at most ten characters (that what is appended is the line's record is `Driver.RunLine`) |
| Driver.RunKeepsZeroRegister | golden_model.c:177 | r0 is zero at the start and after every line |
| Driver.RunFinishedIff | golden_model.c:183-189 | a run reaches the end of its input exactly when every line is five bytes long: no instruction stops it |
| Driver.RunOutputLength | golden_model.c:183-189 | a completed run has written one ten-character record per line |
| Driver.RunOutputGrows | golden_model.c:183-189 | output already written is never taken back by later lines |
| Driver.RunStopsAtMalformedLine | golden_model.c:184-187 | the first line of the wrong length stops the run with that length as the error; registers and output are those the lines before it left |
| Driver.RunAbortsAt | golden_model.c:184-187 | a running simulation that meets a line of the wrong length ends there, whatever follows |
| Driver.RunLine | golden_model.c:188 | a five-byte line executes its instruction on the current registers and appends its record |
| Driver.RunExample | golden_model.c:177-189 | an input starting with `9107` leaves r1 = 7 and writes `910710007` after its first line |
| Driver.ExampleFirstStep | golden_model.c:97-100 | `9107` on zero registers writes 7 into r1 and prints `910710007` |
| Driver.ExampleZeroAdds | golden_model.c:97-100 | `9100` and `9110` on zero registers leave them zero and print `910010000` and `911010000` |
| Driver.ExampleHighRegister | golden_model.c:143-147 | `9f01` writes 1 into r15, and the destination prints as the single digit `f` |
| Driver.ExampleAdd | golden_model.c:56-59 | `1234` with r3 = 5 and r4 = 3 writes 8 into r2 and prints `123420008` |
| Driver.GoldenRun | golden_model.c:177-189 | the loop from a newly allocated all-zero register array computes exactly `Run`'s registers, output and outcome, and leaves r0 zero |

## Left out

- Opening the test-case file and the output file, creating the `outputs` directory, the argument-count check, and all text written to standard error or standard output (`golden_model.c:151-175`, `191-200`). A run's input is a sequence of lines and its output is a string.
- The benchmark timing with `clock_gettime` and the runtime message (`golden_model.c:158-159`, `196-200`).
- `getline` itself: the model is given the lines it would return. The last line of a file without a final newline is just a line of whatever length it has.
- Process exit: `exit(-1)` becomes the `Aborted` status carrying the fault. The output written before the fault is kept, as the buffered file would be flushed at exit.
- Trace.StrtolHex: only lines of at most 15 characters are modelled. Longer lines never reach `strtol` because the driver rejects every line that is not five bytes, and with a 64-bit `long` (LP64, as on 64-bit Linux and macOS) `strtol` never saturates within 15 characters. Where `long` is 32 bits, a line such as `+100000000` saturates to `LONG_MAX`; the model does not cover such lines.
- Bytes of a line are modelled as one `char` each. Locale-dependent behaviour of `isspace` beyond the C locale is not modelled.
- C's `>>` on a negative `int` is implementation-defined. `Reference.ShiftRightSigned32` fixes it to the arithmetic shift that the usual compilers implement.
- C leaves two more things to the implementation or undefined. Narrowing an out-of-range `long` or `int` to `int16_t` is implementation-defined: it happens at `golden_model.c:36`, at `43`, and at the `dest_value` stores whose `int` value can leave the `int16_t` range: `57`, `62`, `82`, `88`, `98`, `118` and `124`. `<<` on a negative promoted `int` is undefined: it happens at `golden_model.c:82` and `118`. The model fixes both to two's-complement wrap-around, as gcc and clang implement them: `Reference.StoredAs` keeps the low 16 bits, and `Reference.CEvaluate` shifts the 32-bit pattern.
