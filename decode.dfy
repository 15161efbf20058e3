/**
 * Instruction decoding: the opcode table, the split of an instruction word
 * into its four 4-bit fields, and the sign extension of the immediate.
 */
module Decode {
  import opened Bits
  import opened Faults

  /** The sixteen operations, named by their mnemonics. */
  datatype Opcode =
    | Mov | Add | Sub | And | Or | Xor | Sll | Srl | Sra
    | Addi | Andi | Ori | Xori | Slli | Srli | Srai

  /** The value of each opcode in the top nibble of an instruction. */
  function Code(op: Opcode): (c: Word)
    ensures c < 16
  {
    match op
    case Mov  => 0x0
    case Add  => 0x1
    case Sub  => 0x2
    case And  => 0x3
    case Or   => 0x4
    case Xor  => 0x5
    case Sll  => 0x6
    case Srl  => 0x7
    case Sra  => 0x8
    case Addi => 0x9
    case Andi => 0xa
    case Ori  => 0xb
    case Xori => 0xc
    case Slli => 0xd
    case Srli => 0xe
    case Srai => 0xf
  }

  /**
   * The opcode dispatch: the operation a decoded opcode value selects, or
   * the unknown-opcode fault for a value that none of the cases names.
   */
  function OpcodeOf(code: Word): (r: Result<Opcode>)
    ensures r.Ok? <==> code < 16
    ensures r.Ok? ==> Code(r.value) == code
    ensures r.Err? ==> r.fault == UnknownOpcode(code)
  {
    match code
    case 0x0 => Ok(Mov)
    case 0x1 => Ok(Add)
    case 0x2 => Ok(Sub)
    case 0x3 => Ok(And)
    case 0x4 => Ok(Or)
    case 0x5 => Ok(Xor)
    case 0x6 => Ok(Sll)
    case 0x7 => Ok(Srl)
    case 0x8 => Ok(Sra)
    case 0x9 => Ok(Addi)
    case 0xa => Ok(Andi)
    case 0xb => Ok(Ori)
    case 0xc => Ok(Xori)
    case 0xd => Ok(Slli)
    case 0xe => Ok(Srli)
    case 0xf => Ok(Srai)
    case _   => Err(UnknownOpcode(code))
  }

  /** Every opcode is found again from its own code: no two opcodes share one. */
  lemma OpcodeOfCode(op: Opcode)
    ensures OpcodeOf(Code(op)) == Ok(op)
  {
  }

  /** The operations whose second operand is the sign-extended immediate. */
  predicate UsesImmediate(op: Opcode)
  {
    op in {Addi, Andi, Ori, Xori, Slli, Srli, Srai}
  }

  /** The operations that shift, by a register operand or by the immediate. */
  predicate IsShift(op: Opcode)
  {
    op in {Sll, Srl, Sra, Slli, Srli, Srai}
  }

  /**
   * The four fields of an instruction.  The opcode is kept as the 16-bit
   * value the dispatch compares, so that a value outside the sixteen cases
   * can be written down at all; the three register fields are nibbles.
   */
  datatype Fields = Fields(opcode: Word, dest: Nibble, src1: Nibble, src2: Nibble)

  /** Reassembles an instruction word from its fields. */
  function Encode(f: Fields): (instr: Word)
    requires f.opcode < 16
  {
    JoinNibbles(f.opcode as Nibble, f.dest, f.src1, f.src2)
  }

  /** Splits an instruction word into opcode, destination, source 1 and source 2. */
  function DecodeFields(instr: Word): (f: Fields)
    ensures f.opcode < 16
    ensures Encode(f) == instr
  {
    JoinNibblesOfNibbles(instr);
    Fields((instr >> 12) & 0xF, NibbleAt(instr, 8), NibbleAt(instr, 4), NibbleAt(instr, 0))
  }

  /** Decoding an encoded instruction gives back the fields it was built from. */
  lemma DecodeEncode(f: Fields)
    requires f.opcode < 16
    ensures DecodeFields(Encode(f)) == f
  {
  }

  /**
   * The 4-bit source-2 field read as a two's-complement number and widened
   * to 16 bits: a field of 8 or more stands for field - 16.
   */
  function SignExtend4(field: Nibble): (imm: Word)
    ensures imm & 0xF == field as Word
    ensures imm == if field < 8 then field as Word else (field as Word) - 16
    ensures (imm & 0x8000 != 0) <==> field >= 8
  {
    if (field as Word) & 0x8 != 0 then (field as Word) | 0xFFF0 else field as Word
  }
}
