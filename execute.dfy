/**
 * Executing one instruction: the per-opcode computation over the register
 * file, the write-back that never touches register 0, and the trace record.
 * `Step` is the meaning of one instruction on a register-file value;
 * `ProcessInstr` does the same to a register-file array in place.
 */
module Execute {
  import opened Bits
  import opened Faults
  import opened Decode
  import opened Trace

  const NumRegs := 16

  /** The sixteen registers r0 to r15. */
  type RegFile = r: seq<Word> | |r| == NumRegs witness ZeroRegs

  /** The register file a run starts from: every register zero. */
  const ZeroRegs: seq<Word> := [0, 0, 0, 0, 0, 0, 0, 0, 0, 0, 0, 0, 0, 0, 0, 0]

  /**
   * The value an operation computes from its first operand `rs1` and either
   * the second register operand `rs2` or the sign-extended immediate `imm`.
   * Additions and subtractions wrap at 16 bits; shifts use the low four bits
   * of their amount.
   */
  function Alu(op: Opcode, rs1: Word, rs2: Word, imm: Word): Word
  {
    match op
    case Mov  => rs1
    case Add  => rs1 + rs2
    case Sub  => rs1 - rs2
    case And  => rs1 & rs2
    case Or   => rs1 | rs2
    case Xor  => rs1 ^ rs2
    case Sll  => ShiftLeft(rs1, ShiftAmount(rs2))
    case Srl  => ShiftRightLogical(rs1, ShiftAmount(rs2))
    case Sra  => ShiftRightArithmetic(rs1, ShiftAmount(rs2))
    case Addi => rs1 + imm
    case Andi => rs1 & imm
    case Ori  => rs1 | imm
    case Xori => rs1 ^ imm
    case Slli => ShiftLeft(rs1, ShiftAmount(imm))
    case Srli => ShiftRightLogical(rs1, ShiftAmount(imm))
    case Srai => ShiftRightArithmetic(rs1, ShiftAmount(imm))
  }

  /** An instruction's operands fetched from the register file and fed to the ALU. */
  function Compute(op: Opcode, f: Fields, regs: RegFile): Word
  {
    Alu(op, regs[f.src1], regs[f.src2], SignExtend4(f.src2))
  }

  /** The second operand of an operation: a register, or the immediate. */
  function Operand2(op: Opcode, f: Fields, regs: RegFile): Word
  {
    if UsesImmediate(op) then SignExtend4(f.src2) else regs[f.src2]
  }

  /** Stores `value` in register `dest`, unless `dest` is the zero register. */
  function WriteBack(regs: RegFile, dest: Nibble, value: Word): (regs': RegFile)
    ensures dest != 0 ==> regs'[dest] == value
    ensures dest == 0 ==> regs' == regs
    ensures forall i: Nibble :: i != dest ==> regs'[i] == regs[i]
  {
    if dest != 0 then regs[dest := value] else regs
  }

  /** The outcome of one instruction: the new register file and its record. */
  datatype Executed = Executed(regs: RegFile, record: TraceRecord)

  /**
   * One instruction: decode, dispatch on the opcode, compute, write back,
   * and describe the result.  The unknown-opcode fault is the dispatch's
   * default case.
   */
  function Step(regs: RegFile, instr: Word): Result<Executed>
  {
    var f := DecodeFields(instr);
    match OpcodeOf(f.opcode)
    case Err(e) => Err(e)
    case Ok(op) =>
      var value := Compute(op, f, regs);
      Ok(Executed(WriteBack(regs, f.dest, value), TraceRecord(instr, f.dest, value)))
  }

  /** Every 16-bit word decodes to one of the sixteen operations: the default case is never taken. */
  lemma StepNeverFaults(regs: RegFile, instr: Word)
    ensures Step(regs, instr).Ok?
    ensures OpcodeOf(DecodeFields(instr).opcode).Ok?
  {
  }

  /**
   * What one instruction does to the register file: at most its destination
   * changes, to the computed value, and nothing changes when the destination
   * is r0.  The record names the instruction, the destination and the value.
   */
  lemma StepEffect(regs: RegFile, instr: Word)
    ensures var f := DecodeFields(instr);
      var op := OpcodeOf(f.opcode).value;
      var e := Step(regs, instr).value;
      && Code(op) == instr >> 12
      && e.record == TraceRecord(instr, f.dest, Compute(op, f, regs))
      && (f.dest != 0 ==> e.regs[f.dest] == Compute(op, f, regs))
      && (f.dest == 0 ==> e.regs == regs)
      && (forall i: Nibble :: i != f.dest ==> e.regs[i] == regs[i])
  {
    var f := DecodeFields(instr);
    assert Encode(f) == instr;
  }

  /** A register file whose r0 is zero still has r0 zero after any instruction. */
  lemma StepKeepsZeroRegister(regs: RegFile, instr: Word)
    requires regs[0] == 0
    ensures Step(regs, instr).Ok? && Step(regs, instr).value.regs[0] == 0
  {
    StepEffect(regs, instr);
  }

  /**
   * The effective shift amount of each shift opcode is the low four bits of
   * its second operand: two register files that agree on the first operand
   * and on those four bits give the same result, whatever the higher bits.
   * For the immediate forms the amount is the raw 4-bit field, even when the
   * field is negative as an immediate.
   */
  lemma ShiftAmountIsLowBits(op: Opcode, f: Fields, regs: RegFile, regs': RegFile)
    requires IsShift(op)
    requires regs'[f.src1] == regs[f.src1]
    requires Operand2(op, f, regs') & 0xF == Operand2(op, f, regs) & 0xF
    ensures Compute(op, f, regs') == Compute(op, f, regs)
    ensures UsesImmediate(op) ==> ShiftAmount(Operand2(op, f, regs)) == f.src2 as Word
  {
  }

  /** SRL and SRLI shift in zeros: for a nonzero amount the result's sign bit is clear. */
  lemma LogicalShiftClearsSign(op: Opcode, f: Fields, regs: RegFile)
    requires op == Srl || op == Srli
    requires ShiftAmount(Operand2(op, f, regs)) != 0
    ensures Compute(op, f, regs) & 0x8000 == 0
  {
  }

  /** SRA and SRAI keep the sign bit of the shifted register. */
  lemma ArithmeticShiftKeepsSign(op: Opcode, f: Fields, regs: RegFile)
    requires op == Sra || op == Srai
    ensures Compute(op, f, regs) & 0x8000 == regs[f.src1] & 0x8000
  {
  }

  /**
   * An instruction that reads a register written by the one before it sees
   * the new value: a MOV from that register copies what the earlier
   * instruction computed.
   */
  lemma ReadAfterWrite(regs: RegFile, first: Word, second: Word)
    requires DecodeFields(first).dest != 0
    requires DecodeFields(second).opcode == Code(Mov)
    requires DecodeFields(second).src1 == DecodeFields(first).dest
    requires DecodeFields(second).dest != 0
    ensures var f := DecodeFields(first);
      var written := Compute(OpcodeOf(f.opcode).value, f, regs);
      var mid := Step(regs, first).value.regs;
      && Step(mid, second).value.regs[DecodeFields(second).dest] == written
      && Step(mid, second).value.record.value == written
  {
    StepEffect(regs, first);
    var mid := Step(regs, first).value.regs;
    StepEffect(mid, second);
  }

  /**
   * MOV into a register other than its source, run twice in a row, leaves
   * the register file as one run does.
   */
  lemma MovIdempotent(regs: RegFile, instr: Word)
    requires DecodeFields(instr).opcode == Code(Mov)
    requires DecodeFields(instr).dest != DecodeFields(instr).src1
    ensures var once := Step(regs, instr).value;
      var twice := Step(once.regs, instr).value;
      twice.regs == once.regs && twice.record == once.record
  {
    var f := DecodeFields(instr);
    StepEffect(regs, instr);
    var once := Step(regs, instr).value;
    StepEffect(once.regs, instr);
    var twice := Step(once.regs, instr).value;
    assert twice.regs[f.dest] == once.regs[f.dest];
    assert forall i: Nibble :: twice.regs[i] == once.regs[i];
    assert forall i | 0 <= i < NumRegs :: twice.regs[i] == once.regs[i] by {
      forall i | 0 <= i < NumRegs ensures twice.regs[i] == once.regs[i] {
        assert twice.regs[(i as Nibble)] == once.regs[(i as Nibble)];
      }
    }
  }

  /**
   * Executes one five-byte input line on the register file in place and
   * returns the line it adds to the trace.  Only the destination register
   * is written, and never r0.
   */
  method ProcessInstr(line: string, regFile: array<Word>) returns (record: string)
    requires regFile.Length == NumRegs
    requires |line| == 5
    modifies regFile
    ensures var s := Step(old(regFile[..]), StrtolHex(line));
      s.Ok? && regFile[..] == s.value.regs && record == FormatRecord(s.value.record)
  {
    var instr := StrtolHex(line);
    var f := DecodeFields(instr);
    ghost var before: RegFile := regFile[..];
    record := "";
    match OpcodeOf(f.opcode)
    case Err(_) =>
      assert false;
    case Ok(op) =>
      var value := Compute(op, f, regFile[..]);
      if f.dest != 0 {
        regFile[f.dest] := value;
      }
      assert regFile[..] == WriteBack(before, f.dest, value);
      record := FormatRecord(TraceRecord(instr, f.dest, value));
  }
}
