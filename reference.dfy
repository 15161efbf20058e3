/**
 * An independent reading of the ALU: each opcode's C expression evaluated
 * the way C evaluates it.  The `int16_t` operands are promoted to 32-bit
 * `int` by sign extension (the logical shifts first cast their operand to
 * `uint16_t`, so it is zero-extended), the operation is done on 32 bits, and
 * storing the result back into an `int16_t` keeps its low 16 bits.  C
 * leaves that narrowing, `<<` on a negative `int` and `>>` on a negative
 * `int` to the implementation; this reading takes the two's-complement
 * behaviour gcc and clang give them.
 */
module Reference {
  import opened Bits
  import opened Decode
  import opened Execute

  /**
   * C's `>>` on a negative `int` as the usual compilers define it: an
   * arithmetic shift, which keeps the sign bit.
   */
  function ShiftRightSigned32(v: CInt, n: CInt): (r: CInt)
    requires n < 32
    ensures r & 0x8000_0000 == v & 0x8000_0000
  {
    if v & 0x8000_0000 == 0 then v >> n else !((!v) >> n)
  }

  /** The 32-bit value of the C expression for `op`, before it is stored into 16 bits. */
  function CEvaluate(op: Opcode, rs1: Word, rs2: Word, imm: Word): CInt
  {
    var a := Promote(rs1);
    var b := Promote(rs2);
    var i := Promote(imm);
    match op
    case Mov  => a
    case Add  => a + b
    case Sub  => a - b
    case And  => a & b
    case Or   => a | b
    case Xor  => a ^ b
    case Sll  => a << (b & 0xF)
    case Srl  => (rs1 as CInt) >> (b & 0xF)
    case Sra  => ShiftRightSigned32(a, b & 0xF)
    case Addi => a + i
    case Andi => a & i
    case Ori  => a | i
    case Xori => a ^ i
    case Slli => a << (i & 0xF)
    case Srli => (rs1 as CInt) >> (i & 0xF)
    case Srai => ShiftRightSigned32(a, i & 0xF)
  }

  /**
   * Storing the C `int` value `c` into an `int16_t` gives `w`: the
   * conversion keeps the low 16 bits, as gcc and clang implement it.
   */
  predicate StoredAs(w: Word, c: CInt)
  {
    w as CInt == c & 0xFFFF
  }

  /** Promoting a word and storing it back gives the word. */
  lemma PromoteStoredAs(a: Word)
    ensures StoredAs(a, Promote(a))
  {
    StoredZeroExtended(a);
    if a & 0x8000 == 0 {
      assert Promote(a) == a as CInt;
    } else {
      assert Promote(a) == (a as CInt) | 0xFFFF_0000;
      StoredOrHighHalf(a, a as CInt);
    }
  }

  /** Zero extension followed by storing back gives the word. */
  lemma StoredZeroExtended(a: Word)
    ensures StoredAs(a, a as CInt)
  {
  }

  /** Setting the high half of an `int` does not change what it stores as. */
  lemma StoredOrHighHalf(a: Word, x: CInt)
    requires StoredAs(a, x)
    ensures StoredAs(a, x | 0xFFFF_0000)
  {
  }

  /*
   * Each C operator on any two `int` values that store as `a` and `b`
   * stores as the 16-bit operator's result on `a` and `b`: the low half of
   * a 32-bit sum, difference or bitwise combination depends only on the low
   * halves of the operands.
   */

  lemma LowHalfOfSum(a: Word, b: Word, x: CInt, y: CInt)
    requires x & 0xFFFF == a as CInt && y & 0xFFFF == b as CInt
    ensures (a + b) as CInt == (x + y) & 0xFFFF
  {
  }

  lemma StoredAdd(a: Word, b: Word, x: CInt, y: CInt)
    requires StoredAs(a, x) && StoredAs(b, y)
    ensures StoredAs(a + b, x + y)
  {
    LowHalfOfSum(a, b, x, y);
  }

  lemma StoredNeg(b: Word, y: CInt)
    requires StoredAs(b, y)
    ensures StoredAs(-b, -y)
  {
  }

  /** Subtraction is addition of the negation, at both widths. */
  lemma SubIsAddNeg(a: Word, b: Word, x: CInt, y: CInt)
    ensures StoredAs(a - b, x - y) == StoredAs(a + (-b), x + (-y))
  {
  }

  lemma StoredSub(a: Word, b: Word, x: CInt, y: CInt)
    requires StoredAs(a, x) && StoredAs(b, y)
    ensures StoredAs(a - b, x - y)
  {
    StoredNeg(b, y);
    StoredAdd(a, -b, x, -y);
    SubIsAddNeg(a, b, x, y);
  }

  lemma StoredAnd(a: Word, b: Word, x: CInt, y: CInt)
    requires StoredAs(a, x) && StoredAs(b, y)
    ensures StoredAs(a & b, x & y)
  {
  }

  lemma StoredOr(a: Word, b: Word, x: CInt, y: CInt)
    requires StoredAs(a, x) && StoredAs(b, y)
    ensures StoredAs(a | b, x | y)
  {
  }

  lemma StoredXor(a: Word, b: Word, x: CInt, y: CInt)
    requires StoredAs(a, x) && StoredAs(b, y)
    ensures StoredAs(a ^ b, x ^ y)
  {
  }

  /** The low half of a left-shifted `int` depends only on the low half of the operand. */
  lemma LowHalfOfShiftLeft(a: Word, x: CInt, n: Word)
    requires n < 16 && StoredAs(a, x)
    ensures StoredAs(a << n, x << (n as CInt))
  {
  }

  /** C's amount `b & 0xF`, taken on the promoted operand, is the simulator's amount. */
  lemma PromotedAmount(b: Word)
    ensures Promote(b) & 0xF == ShiftAmount(b) as CInt
  {
  }

  /** The left shift of the promoted operand by `n` stores as the 16-bit left shift by `n`. */
  lemma StoredShiftLeftBy(a: Word, n: Word)
    requires n < 16
    ensures StoredAs(ShiftLeft(a, n), Promote(a) << (n as CInt))
  {
    PromoteStoredAs(a);
    LowHalfOfShiftLeft(a, Promote(a), n);
  }

  /** C's left shift of the promoted operand stores as the 16-bit left shift. */
  lemma StoredShiftLeft(a: Word, b: Word)
    ensures StoredAs(ShiftLeft(a, ShiftAmount(b)), Promote(a) << (Promote(b) & 0xF))
  {
    PromotedAmount(b);
    StoredShiftLeftBy(a, ShiftAmount(b));
  }

  /** A logical right shift of the zero-extended word is the 16-bit logical shift. */
  lemma ZeroExtendedShiftRight(a: Word, n: Word)
    requires n < 16
    ensures StoredAs(ShiftRightLogical(a, n), (a as CInt) >> (n as CInt))
  {
  }

  /** C's right shift of the operand cast to `uint16_t` stores as the 16-bit logical shift. */
  lemma StoredShiftRightLogical(a: Word, b: Word)
    ensures StoredAs(ShiftRightLogical(a, ShiftAmount(b)), (a as CInt) >> (Promote(b) & 0xF))
  {
    PromotedAmount(b);
    ZeroExtendedShiftRight(a, ShiftAmount(b));
  }

  /** C's signed shift of a negative `int` complements, shifts logically and complements again. */
  lemma SignedShiftNegative(v: CInt, m: CInt)
    requires v & 0x8000_0000 != 0 && m < 32
    ensures ShiftRightSigned32(v, m) == !((!v) >> m)
  {
  }

  /** C's signed shift of a non-negative `int` is the logical shift. */
  lemma SignedShiftNonNegative(v: CInt, m: CInt)
    requires v & 0x8000_0000 == 0 && m < 32
    ensures ShiftRightSigned32(v, m) == v >> m
  {
  }

  /** The signed shift of a promoted negative word, written out on the word itself. */
  lemma PromotedSignedShiftNegative(a: Word, n: Word)
    requires a & 0x8000 != 0 && n < 16
    ensures ShiftRightSigned32(Promote(a), n as CInt) == !((!((a as CInt) | 0xFFFF_0000)) >> (n as CInt))
  {
    SignedShiftNegative((a as CInt) | 0xFFFF_0000, n as CInt);
    assert Promote(a) == (a as CInt) | 0xFFFF_0000;
  }

  /** Complement, logical shift, complement: the 16-bit and the 32-bit forms store alike. */
  lemma StoredComplementShift(a: Word, n: Word)
    requires a & 0x8000 != 0 && n < 16
    ensures StoredAs(!((!a) >> n), !((!((a as CInt) | 0xFFFF_0000)) >> (n as CInt)))
  {
  }

  /** A non-negative word promotes to its zero extension, so both are shifted alike. */
  lemma PromoteNonNegativeShift(a: Word, n: Word)
    requires a & 0x8000 == 0 && n < 16
    ensures ShiftRightSigned32(Promote(a), n as CInt) == ShiftRightSigned32(a as CInt, n as CInt)
  {
    assert Promote(a) == a as CInt;
  }

  /** The signed shift of a promoted non-negative word is the shift of its zero extension. */
  lemma PromotedSignedShiftNonNegative(a: Word, n: Word)
    requires a & 0x8000 == 0 && n < 16
    ensures ShiftRightSigned32(Promote(a), n as CInt) == (a as CInt) >> (n as CInt)
  {
    PromoteNonNegativeShift(a, n);
    SignedShiftNonNegative(a as CInt, n as CInt);
  }

  /** For a non-negative word both readings are the logical shift. */
  lemma StoredSignedShiftNonNegative(a: Word, n: Word)
    requires a & 0x8000 == 0 && n < 16
    ensures StoredAs(ShiftRightArithmetic(a, n), ShiftRightSigned32(Promote(a), n as CInt))
  {
    PromotedSignedShiftNonNegative(a, n);
    ZeroExtendedShiftRight(a, n);
  }

  /** For a negative word both readings complement, shift logically and complement again. */
  lemma StoredSignedShiftNegative(a: Word, n: Word)
    requires a & 0x8000 != 0 && n < 16
    ensures StoredAs(ShiftRightArithmetic(a, n), ShiftRightSigned32(Promote(a), n as CInt))
  {
    PromotedSignedShiftNegative(a, n);
    StoredComplementShift(a, n);
  }

  /** C's right shift of the promoted operand stores as the 16-bit arithmetic shift. */
  lemma StoredShiftRightArithmetic(a: Word, b: Word)
    ensures StoredAs(ShiftRightArithmetic(a, ShiftAmount(b)), ShiftRightSigned32(Promote(a), Promote(b) & 0xF))
  {
    PromotedAmount(b);
    if a & 0x8000 == 0 {
      StoredSignedShiftNonNegative(a, ShiftAmount(b));
    } else {
      StoredSignedShiftNegative(a, ShiftAmount(b));
    }
  }

  /*
   * What the two readings compute for the wrapping opcodes, one opcode at
   * a time.
   */

  lemma AddEvaluates(rs1: Word, rs2: Word, imm: Word)
    ensures Alu(Add, rs1, rs2, imm) == rs1 + rs2
    ensures CEvaluate(Add, rs1, rs2, imm) == Promote(rs1) + Promote(rs2)
  {
  }

  lemma SubEvaluates(rs1: Word, rs2: Word, imm: Word)
    ensures Alu(Sub, rs1, rs2, imm) == rs1 - rs2
    ensures CEvaluate(Sub, rs1, rs2, imm) == Promote(rs1) - Promote(rs2)
  {
  }

  lemma AddiEvaluates(rs1: Word, rs2: Word, imm: Word)
    ensures Alu(Addi, rs1, rs2, imm) == rs1 + imm
    ensures CEvaluate(Addi, rs1, rs2, imm) == Promote(rs1) + Promote(imm)
  {
  }

  /*
   * One lemma per opcode: the value the simulator writes is the value the
   * C expression stores.
   */

  lemma MovMatchesC(rs1: Word, rs2: Word, imm: Word)
    ensures StoredAs(Alu(Mov, rs1, rs2, imm), CEvaluate(Mov, rs1, rs2, imm))
  {
    PromoteStoredAs(rs1);
  }

  lemma AddMatchesC(rs1: Word, rs2: Word, imm: Word)
    ensures StoredAs(Alu(Add, rs1, rs2, imm), CEvaluate(Add, rs1, rs2, imm))
  {
    AddEvaluates(rs1, rs2, imm);
    PromoteStoredAs(rs1);
    PromoteStoredAs(rs2);
    StoredAdd(rs1, rs2, Promote(rs1), Promote(rs2));
  }

  lemma SubMatchesC(rs1: Word, rs2: Word, imm: Word)
    ensures StoredAs(Alu(Sub, rs1, rs2, imm), CEvaluate(Sub, rs1, rs2, imm))
  {
    SubEvaluates(rs1, rs2, imm);
    PromoteStoredAs(rs1);
    PromoteStoredAs(rs2);
    StoredSub(rs1, rs2, Promote(rs1), Promote(rs2));
  }

  lemma AndMatchesC(rs1: Word, rs2: Word, imm: Word)
    ensures StoredAs(Alu(And, rs1, rs2, imm), CEvaluate(And, rs1, rs2, imm))
  {
    PromoteStoredAs(rs1);
    PromoteStoredAs(rs2);
    StoredAnd(rs1, rs2, Promote(rs1), Promote(rs2));
  }

  lemma OrMatchesC(rs1: Word, rs2: Word, imm: Word)
    ensures StoredAs(Alu(Or, rs1, rs2, imm), CEvaluate(Or, rs1, rs2, imm))
  {
    PromoteStoredAs(rs1);
    PromoteStoredAs(rs2);
    StoredOr(rs1, rs2, Promote(rs1), Promote(rs2));
  }

  lemma XorMatchesC(rs1: Word, rs2: Word, imm: Word)
    ensures StoredAs(Alu(Xor, rs1, rs2, imm), CEvaluate(Xor, rs1, rs2, imm))
  {
    PromoteStoredAs(rs1);
    PromoteStoredAs(rs2);
    StoredXor(rs1, rs2, Promote(rs1), Promote(rs2));
  }

  lemma SllMatchesC(rs1: Word, rs2: Word, imm: Word)
    ensures StoredAs(Alu(Sll, rs1, rs2, imm), CEvaluate(Sll, rs1, rs2, imm))
  {
    StoredShiftLeft(rs1, rs2);
  }

  lemma SrlMatchesC(rs1: Word, rs2: Word, imm: Word)
    ensures StoredAs(Alu(Srl, rs1, rs2, imm), CEvaluate(Srl, rs1, rs2, imm))
  {
    StoredShiftRightLogical(rs1, rs2);
  }

  lemma SraMatchesC(rs1: Word, rs2: Word, imm: Word)
    ensures StoredAs(Alu(Sra, rs1, rs2, imm), CEvaluate(Sra, rs1, rs2, imm))
  {
    StoredShiftRightArithmetic(rs1, rs2);
  }

  lemma AddiMatchesC(rs1: Word, rs2: Word, imm: Word)
    ensures StoredAs(Alu(Addi, rs1, rs2, imm), CEvaluate(Addi, rs1, rs2, imm))
  {
    AddiEvaluates(rs1, rs2, imm);
    PromoteStoredAs(rs1);
    PromoteStoredAs(imm);
    StoredAdd(rs1, imm, Promote(rs1), Promote(imm));
  }

  lemma AndiMatchesC(rs1: Word, rs2: Word, imm: Word)
    ensures StoredAs(Alu(Andi, rs1, rs2, imm), CEvaluate(Andi, rs1, rs2, imm))
  {
    PromoteStoredAs(rs1);
    PromoteStoredAs(imm);
    StoredAnd(rs1, imm, Promote(rs1), Promote(imm));
  }

  lemma OriMatchesC(rs1: Word, rs2: Word, imm: Word)
    ensures StoredAs(Alu(Ori, rs1, rs2, imm), CEvaluate(Ori, rs1, rs2, imm))
  {
    PromoteStoredAs(rs1);
    PromoteStoredAs(imm);
    StoredOr(rs1, imm, Promote(rs1), Promote(imm));
  }

  lemma XoriMatchesC(rs1: Word, rs2: Word, imm: Word)
    ensures StoredAs(Alu(Xori, rs1, rs2, imm), CEvaluate(Xori, rs1, rs2, imm))
  {
    PromoteStoredAs(rs1);
    PromoteStoredAs(imm);
    StoredXor(rs1, imm, Promote(rs1), Promote(imm));
  }

  lemma SlliMatchesC(rs1: Word, rs2: Word, imm: Word)
    ensures StoredAs(Alu(Slli, rs1, rs2, imm), CEvaluate(Slli, rs1, rs2, imm))
  {
    StoredShiftLeft(rs1, imm);
  }

  lemma SrliMatchesC(rs1: Word, rs2: Word, imm: Word)
    ensures StoredAs(Alu(Srli, rs1, rs2, imm), CEvaluate(Srli, rs1, rs2, imm))
  {
    StoredShiftRightLogical(rs1, imm);
  }

  lemma SraiMatchesC(rs1: Word, rs2: Word, imm: Word)
    ensures StoredAs(Alu(Srai, rs1, rs2, imm), CEvaluate(Srai, rs1, rs2, imm))
  {
    StoredShiftRightArithmetic(rs1, imm);
  }

  /**
   * For every opcode, the value the simulator writes is the value the C
   * expression stores, for all operand values.
   */
  lemma AluMatchesC(op: Opcode, rs1: Word, rs2: Word, imm: Word)
    ensures StoredAs(Alu(op, rs1, rs2, imm), CEvaluate(op, rs1, rs2, imm))
  {
    match op
    case Mov => MovMatchesC(rs1, rs2, imm);
    case Add => AddMatchesC(rs1, rs2, imm);
    case Sub => SubMatchesC(rs1, rs2, imm);
    case And => AndMatchesC(rs1, rs2, imm);
    case Or => OrMatchesC(rs1, rs2, imm);
    case Xor => XorMatchesC(rs1, rs2, imm);
    case Sll => SllMatchesC(rs1, rs2, imm);
    case Srl => SrlMatchesC(rs1, rs2, imm);
    case Sra => SraMatchesC(rs1, rs2, imm);
    case Addi => AddiMatchesC(rs1, rs2, imm);
    case Andi => AndiMatchesC(rs1, rs2, imm);
    case Ori => OriMatchesC(rs1, rs2, imm);
    case Xori => XoriMatchesC(rs1, rs2, imm);
    case Slli => SlliMatchesC(rs1, rs2, imm);
    case Srli => SrliMatchesC(rs1, rs2, imm);
    case Srai => SraiMatchesC(rs1, rs2, imm);
  }

  /**
   * The value an instruction computes from the registers it reads is the
   * value its C expression stores into `dest_value`.
   */
  lemma ComputeMatchesC(op: Opcode, f: Fields, regs: RegFile)
    ensures StoredAs(Compute(op, f, regs), CEvaluate(op, regs[f.src1], regs[f.src2], SignExtend4(f.src2)))
  {
    AluMatchesC(op, regs[f.src1], regs[f.src2], SignExtend4(f.src2));
  }

  /**
   * Signed overflow wraps instead of trapping: 0x7FFF + 0x0001 is 32768 in
   * C's `int`, and the register receives 0x8000, the most negative 16-bit value.
   */
  lemma AddOverflowWraps(regs: RegFile, f: Fields)
    requires regs[f.src1] == 0x7FFF && regs[f.src2] == 0x0001
    ensures CEvaluate(Add, regs[f.src1], regs[f.src2], SignExtend4(f.src2)) == 0x0000_8000
    ensures Compute(Add, f, regs) == 0x8000
    ensures Promote(Compute(Add, f, regs)) == 0xFFFF_8000
  {
  }

  /**
   * SRA on a negative register fills with ones, as C's `>>` does on the
   * promoted value: 0x8000 shifted right by 4 is 0xF800 in both readings.
   */
  lemma ArithmeticShiftOfNegative(regs: RegFile, f: Fields)
    requires regs[f.src1] == 0x8000 && regs[f.src2] == 0x0004
    ensures CEvaluate(Sra, regs[f.src1], regs[f.src2], SignExtend4(f.src2)) == 0xFFFF_F800
    ensures Compute(Sra, f, regs) == 0xF800
  {
  }

  /**
   * SRAI's amount is the raw 4-bit field: the immediate 0xF reads as -1, yet
   * the amount is 15, so a negative register becomes all ones in both readings.
   */
  lemma ArithmeticShiftImmediateAmount(regs: RegFile, f: Fields)
    requires regs[f.src1] == 0x8000 && f.src2 == 0xF
    ensures SignExtend4(f.src2) == 0xFFFF
    ensures CEvaluate(Srai, regs[f.src1], regs[f.src2], SignExtend4(f.src2)) == 0xFFFF_FFFF
    ensures Compute(Srai, f, regs) == 0xFFFF
  {
  }
}
