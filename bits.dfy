/**
 * 16-bit machine words and the bit-level helpers the simulator's ALU is
 * built from.  Everything stays in bit-vector arithmetic: a register value
 * is a `bv16` pattern, and the C `int` that the C program computes in
 * after integer promotion is a `bv32` pattern.  Conversions and shifts
 * follow two's complement, as gcc and clang implement them.
 */
module Bits {

  /** A register value or an instruction word: 16 bits, two's complement. */
  type Word = bv16

  /** A 4-bit instruction field. */
  type Nibble = bv4

  /** The value of a C `int` (32 bits, two's complement). */
  type CInt = bv32


  /** The nibble that starts at bit `shift` of `w` (`(w >> shift) & 0xF`). */
  function NibbleAt(w: Word, shift: Word): Nibble
    requires shift <= 12
  {
    ((w >> shift) & 0xF) as Nibble
  }

  /** The word whose four nibbles, most significant first, are `n3 n2 n1 n0`. */
  function JoinNibbles(n3: Nibble, n2: Nibble, n1: Nibble, n0: Nibble): (w: Word)
    ensures NibbleAt(w, 12) == n3 && NibbleAt(w, 8) == n2
    ensures NibbleAt(w, 4) == n1 && NibbleAt(w, 0) == n0
  {
    ((n3 as Word) << 12) | ((n2 as Word) << 8) | ((n1 as Word) << 4) | (n0 as Word)
  }

  /** Splitting a word into its four nibbles loses nothing. */
  lemma JoinNibblesOfNibbles(w: Word)
    ensures JoinNibbles(NibbleAt(w, 12), NibbleAt(w, 8), NibbleAt(w, 4), NibbleAt(w, 0)) == w
  {
  }

  /**
   * C's integer promotion of an `int16_t` to `int`: sign extension.  The low
   * 16 bits are the word itself and bits 16 to 31 are all copies of its sign.
   */
  function Promote(a: Word): CInt
  {
    if a & 0x8000 == 0 then a as CInt else (a as CInt) | 0xFFFF_0000
  }

  /** Promotion fills the high half of the `int` with copies of the sign bit. */
  lemma PromoteHighHalf(a: Word)
    ensures Promote(a) & 0xFFFF_0000 == (if a & 0x8000 == 0 then 0 else 0xFFFF_0000)
  {
  }

  /** A shift amount as the simulator takes it: the low four bits of the operand. */
  function ShiftAmount(b: Word): (n: Word)
    ensures n < 16
    ensures n == 0 <==> b & 0xF == 0
  {
    b & 0xF
  }

  /** Logical shift left by at most 15; bits shifted past bit 15 are lost. */
  function ShiftLeft(a: Word, n: Word): (r: Word)
    requires n < 16
    ensures r & ((1 << n) - 1) == 0
  {
    a << n
  }

  /**
   * Logical (zero-filling) shift right by at most 15: the top `n` bits of
   * the result are zero, so a nonzero shift clears the sign bit.
   */
  function ShiftRightLogical(a: Word, n: Word): (r: Word)
    requires n < 16
    ensures r <= 0xFFFF >> n
    ensures n != 0 ==> r & 0x8000 == 0
  {
    a >> n
  }

  /**
   * Arithmetic (sign-filling) shift right by at most 15: the logical shift,
   * with the top `n` bits set when the word is negative.  The sign bit is
   * kept.
   */
  function ShiftRightArithmetic(a: Word, n: Word): (r: Word)
    requires n < 16
    ensures a & 0x8000 == 0 ==> r == ShiftRightLogical(a, n)
    ensures a & 0x8000 != 0 ==> r == ShiftRightLogical(a, n) | !(0xFFFF >> n)
    ensures r & 0x8000 == a & 0x8000
  {
    if a & 0x8000 == 0 then a >> n else !((!a) >> n)
  }
}
