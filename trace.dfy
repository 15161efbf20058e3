/**
 * The text the simulator reads and writes: an input line holds one
 * instruction as four hex digits, and each output record is the instruction,
 * the destination register and the value written, as lower-case hex.
 */
module Trace {
  import opened Bits

  const LowerHexDigits := "0123456789abcdef"

  predicate IsHexChar(c: char)
  {
    '0' <= c <= '9' || 'a' <= c <= 'f' || 'A' <= c <= 'F'
  }

  predicate IsLowerHexChar(c: char)
  {
    '0' <= c <= '9' || 'a' <= c <= 'f'
  }

  /** A hex digit in the case the output uses. */
  function ToLowerHex(c: char): (d: char)
    requires IsHexChar(c)
    ensures IsLowerHexChar(d)
    ensures IsLowerHexChar(c) ==> d == c
    ensures 'A' <= c <= 'F' ==> d as int == c as int - 'A' as int + 'a' as int
  {
    if 'A' <= c <= 'F' then (c as int - 'A' as int + 'a' as int) as char else c
  }

  /** The lower-case digit for a nibble. */
  function HexDigit(n: Nibble): (c: char)
    ensures IsLowerHexChar(c)
  {
    LowerHexDigits[n]
  }

  /** The nibble a hex digit of either case stands for. */
  function DigitValue(c: char): (n: Nibble)
    requires IsHexChar(c)
    ensures HexDigit(n) == ToLowerHex(c)
  {
    match c
    case '0' => 0x0 case '1' => 0x1 case '2' => 0x2 case '3' => 0x3
    case '4' => 0x4 case '5' => 0x5 case '6' => 0x6 case '7' => 0x7
    case '8' => 0x8 case '9' => 0x9
    case 'a' | 'A' => 0xa case 'b' | 'B' => 0xb case 'c' | 'C' => 0xc
    case 'd' | 'D' => 0xd case 'e' | 'E' => 0xe case _ => 0xf
  }

  /** Reading back the digit of a nibble gives that nibble. */
  lemma DigitValueOfHexDigit(n: Nibble)
    ensures DigitValue(HexDigit(n)) == n
  {
  }

  predicate IsHex4(s: string)
  {
    |s| == 4 && forall i :: 0 <= i < 4 ==> IsHexChar(s[i])
  }

  /** A word as exactly four lower-case hex digits, zero padded (`%04hx`). */
  function Hex4(w: Word): (s: string)
    ensures |s| == 4 && IsHex4(s)
    ensures forall i :: 0 <= i < 4 ==> IsLowerHexChar(s[i])
  {
    [HexDigit(NibbleAt(w, 12)), HexDigit(NibbleAt(w, 8)), HexDigit(NibbleAt(w, 4)), HexDigit(NibbleAt(w, 0))]
  }

  /** The word four hex digits of either case spell, most significant first. */
  function ParseHex4(s: string): (w: Word)
    requires IsHex4(s)
    ensures forall i :: 0 <= i < 4 ==> Hex4(w)[i] == ToLowerHex(s[i])
  {
    JoinNibbles(DigitValue(s[0]), DigitValue(s[1]), DigitValue(s[2]), DigitValue(s[3]))
  }

  /** Printing a word and reading it back gives the same word. */
  lemma ParseHex4OfHex4(w: Word)
    ensures ParseHex4(Hex4(w)) == w
  {
    DigitValueOfHexDigit(NibbleAt(w, 12));
    DigitValueOfHexDigit(NibbleAt(w, 8));
    DigitValueOfHexDigit(NibbleAt(w, 4));
    DigitValueOfHexDigit(NibbleAt(w, 0));
    JoinNibblesOfNibbles(w);
  }

  /**
   * A canonical input line: four hex digits and the line terminator,
   * five bytes in all.
   */
  predicate IsInstrLine(line: string)
  {
    |line| == 5 && IsHex4(line[..4]) && line[4] == '\n'
  }

  /** The instruction word on an input line. */
  function ParseInstr(line: string): Word
    requires IsInstrLine(line)
  {
    ParseHex4(line[..4])
  }

  /*
   * C's `strtol(line, NULL, 16)` followed by the conversion of its `long`
   * result to `int16_t`, which keeps the low 16 bits (two's-complement
   * wrap-around, as gcc and clang implement the conversion).  Leading
   * white space is skipped, a sign and a `0x`/`0X` prefix are accepted, and
   * the longest run of hex digits after them is read; anything after that
   * run is ignored, and a line with no digits reads as 0.
   */

  /** The characters `isspace` accepts in the C locale. */
  predicate IsSpace(c: char)
  {
    c == ' ' || c == '\t' || c == '\n' || c == '\U{0B}' || c == '\U{0C}' || c == '\r'
  }

  /** The first position at or after `i` that does not hold white space. */
  function SkipSpaces(s: string, i: nat): (j: nat)
    requires i <= |s|
    ensures i <= j <= |s|
    ensures forall k :: i <= k < j ==> IsSpace(s[k])
    ensures j < |s| ==> !IsSpace(s[j])
    decreases |s| - i
  {
    if i < |s| && IsSpace(s[i]) then SkipSpaces(s, i + 1) else i
  }

  /**
   * The digits from position `i` up to the first character that is not a
   * hex digit, appended to `acc` four bits at a time; bits pushed past bit
   * 15 are lost, as the conversion to `int16_t` loses them.
   */
  function HexRun(s: string, i: nat, acc: Word): Word
    requires i <= |s|
    decreases |s| - i
  {
    if i < |s| && IsHexChar(s[i]) then HexRun(s, i + 1, ShiftIn(acc, DigitValue(s[i]))) else acc
  }

  /** One more digit read: the accumulated value times 16 plus the digit, modulo 2^16. */
  function ShiftIn(acc: Word, n: Nibble): Word
  {
    (acc << 4) | n as Word
  }

  /** The position after an optional `0x` or `0X` at position `i`. */
  function SkipHexPrefix(s: string, i: nat): (j: nat)
    requires i <= |s|
    ensures j <= |s|
    ensures j == i || (j == i + 2 && s[i] == '0' && (s[i + 1] == 'x' || s[i + 1] == 'X'))
    ensures i + 1 < |s| && s[i] == '0' && (s[i + 1] == 'x' || s[i + 1] == 'X') ==> j == i + 2
  {
    if i + 1 < |s| && s[i] == '0' && (s[i + 1] == 'x' || s[i + 1] == 'X') then i + 2 else i
  }

  /**
   * The instruction word `strtol` reads from a line.  A prefix `0x` with no
   * digits after it reads as 0 whether or not it is skipped, so it is
   * always skipped here.  With a 64-bit `long`, at most 15 characters
   * keep the value below its saturation bound.
   */
  function StrtolHex(s: string): Word
    requires |s| <= 15
  {
    var i := SkipSpaces(s, 0);
    var j := if i < |s| && (s[i] == '+' || s[i] == '-') then i + 1 else i;
    var v := HexRun(s, SkipHexPrefix(s, j), 0);
    if i < |s| && s[i] == '-' then -v else v
  }

  /**
   * Four hex digits at position `i`, followed by the end of the string or a
   * character that is not a hex digit, read as the word they spell,
   * whatever was accumulated before them.
   */
  lemma HexRunOfHex4(s: string, i: nat, acc: Word)
    requires i + 4 <= |s| && IsHex4(s[i..i + 4])
    requires i + 4 == |s| || !IsHexChar(s[i + 4])
    ensures HexRun(s, i, acc) == ParseHex4(s[i..i + 4])
  {
    var t := s[i..i + 4];
    assert t[0] == s[i] && t[1] == s[i + 1] && t[2] == s[i + 2] && t[3] == s[i + 3];
    HexRunFour(s, i, acc);
    ShiftInNibbles(acc, DigitValue(t[0]), DigitValue(t[1]), DigitValue(t[2]), DigitValue(t[3]));
  }

  /** Reading four digits is four `ShiftIn` steps. */
  lemma HexRunFour(s: string, i: nat, acc: Word)
    requires i + 4 <= |s|
    requires IsHexChar(s[i]) && IsHexChar(s[i + 1]) && IsHexChar(s[i + 2]) && IsHexChar(s[i + 3])
    requires i + 4 == |s| || !IsHexChar(s[i + 4])
    ensures HexRun(s, i, acc) ==
      ShiftIn(ShiftIn(ShiftIn(ShiftIn(acc, DigitValue(s[i])), DigitValue(s[i + 1])), DigitValue(s[i + 2])), DigitValue(s[i + 3]))
  {
    var a1 := ShiftIn(acc, DigitValue(s[i]));
    var a2 := ShiftIn(a1, DigitValue(s[i + 1]));
    var a3 := ShiftIn(a2, DigitValue(s[i + 2]));
    var a4 := ShiftIn(a3, DigitValue(s[i + 3]));
    assert HexRun(s, i + 4, a4) == a4;
    assert HexRun(s, i + 2, a2) == HexRun(s, i + 3, a3) == HexRun(s, i + 4, a4);
    assert HexRun(s, i, acc) == HexRun(s, i + 1, a1) == HexRun(s, i + 2, a2);
  }

  /** Shifting four nibbles into a 16-bit accumulator leaves exactly those four. */
  lemma ShiftInNibbles(acc: Word, n3: Nibble, n2: Nibble, n1: Nibble, n0: Nibble)
    ensures ShiftIn(ShiftIn(ShiftIn(ShiftIn(acc, n3), n2), n1), n0) == JoinNibbles(n3, n2, n1, n0)
  {
  }

  /** On a well-formed line `strtol` reads the four hex digits before the newline. */
  lemma StrtolOfInstrLine(line: string)
    requires IsInstrLine(line)
    ensures StrtolHex(line) == ParseInstr(line)
  {
    assert IsHexChar(line[..4][0]) && IsHexChar(line[..4][1]);
    assert line[0..4] == line[..4];
    HexRunOfHex4(line, 0, 0);
  }

  /**
   * A five-byte line of five hex digits, the last line of a file without a
   * newline, loses its first digit: only the low 16 bits are kept.
   */
  lemma StrtolKeepsLowDigits(line: string)
    requires |line| == 5 && forall i :: 0 <= i < 5 ==> IsHexChar(line[i])
    ensures StrtolHex(line) == ParseHex4(line[1..])
  {
    var rest := line[1..5];
    assert line[1..] == rest;
    assert forall i :: 0 <= i < 4 ==> rest[i] == line[i + 1];
    assert IsHexChar(line[1]) && !IsSpace(line[0]);
    HexRunOfHex4(line, 1, ShiftIn(0, DigitValue(line[0])));
  }

  /** Two strings that agree from position `k` on have the same digit run from `k`. */
  lemma {:induction false} HexRunAgrees(s: string, t: string, k: nat, acc: Word)
    requires |s| == |t| && k <= |s|
    requires forall j :: k <= j < |s| ==> s[j] == t[j]
    ensures HexRun(s, k, acc) == HexRun(t, k, acc)
    decreases |s| - k
  {
    if k < |s| && IsHexChar(s[k]) {
      HexRunAgrees(s, t, k + 1, ShiftIn(acc, DigitValue(s[k])));
    }
  }

  /**
   * A minus sign negates modulo 2^16: a line whose first character after
   * the white space is `-` reads as the negation of the same line with a
   * `+` in its place.
   */
  lemma StrtolMinusNegates(s: string)
    requires |s| <= 15
    requires SkipSpaces(s, 0) < |s| && s[SkipSpaces(s, 0)] == '-'
    ensures StrtolHex(s) == -StrtolHex(s[SkipSpaces(s, 0) := '+'])
  {
    var i := SkipSpaces(s, 0);
    var t := s[i := '+'];
    var k := SkipSpaces(t, 0);
    assert forall j :: 0 <= j < i ==> t[j] == s[j];
    assert !IsSpace(t[i]);
    assert k == i;
    assert SkipHexPrefix(t, i + 1) == SkipHexPrefix(s, i + 1);
    HexRunAgrees(s, t, SkipHexPrefix(s, i + 1), 0);
  }

  /** A word printed as four hex digits and a newline reads back as that word. */
  lemma StrtolOfHex4(w: Word)
    ensures StrtolHex(Hex4(w) + "\n") == w
  {
    var line := Hex4(w) + "\n";
    assert line[..4] == Hex4(w);
    StrtolOfInstrLine(line);
    ParseHex4OfHex4(w);
  }

  /** Digits stop at the first other character; a line with none reads as 0. */
  lemma StrtolStopsAtNonDigit()
    ensures StrtolHex("zzzz\n") == 0
    ensures StrtolHex("12zz\n") == 0x12
  {
  }

  /** A minus sign negates modulo 2^16. */
  lemma StrtolNegates()
    ensures StrtolHex("-001\n") == 0xFFFF
  {
    assert HexRun("-001\n", 1, 0) == 1;
  }

  /** A `0x` prefix and leading white space are skipped. */
  lemma StrtolSkipsPrefixes()
    ensures StrtolHex("0x1f\n") == 0x1F
    ensures StrtolHex("  7a\n") == 0x7A
  {
  }

  /** What one instruction leaves in the trace. */
  datatype TraceRecord = TraceRecord(instr: Word, dest: Nibble, value: Word)

  /** The value a record reports: the computed value, or 0 when r0 was the destination. */
  function Reported(r: TraceRecord): Word
  {
    if r.dest != 0 then r.value else 0
  }

  /** One output line: `%04hx` instruction, `%x` destination, `%04hx` value or `0000`, newline. */
  function FormatRecord(r: TraceRecord): (line: string)
    ensures |line| == 10 && line[9] == '\n'
    ensures forall i :: 0 <= i < 9 ==> IsLowerHexChar(line[i])
  {
    Hex4(r.instr) + [HexDigit(r.dest)] + (if r.dest != 0 then Hex4(r.value) else "0000") + "\n"
  }

  /**
   * Each field of a record can be read back from its line: the first four
   * characters give the instruction, the fifth the destination register and
   * the next four the reported value, which is `0000` when the destination
   * is r0 and the computed value otherwise.
   */
  lemma FormatRecordFields(r: TraceRecord)
    ensures var line := FormatRecord(r);
      && line[..4] == Hex4(r.instr)
      && line[4] == HexDigit(r.dest)
      && (r.dest == 0 ==> line[5..9] == "0000")
      && (r.dest != 0 ==> line[5..9] == Hex4(r.value))
      && line[5..9] == Hex4(Reported(r))
      && ParseHex4(line[..4]) == r.instr
      && DigitValue(line[4]) == r.dest
      && ParseHex4(line[5..9]) == Reported(r)
  {
    var line := FormatRecord(r);
    assert Hex4(0) == "0000";
    assert line[..4] == Hex4(r.instr);
    assert line[5..9] == Hex4(Reported(r));
    ParseHex4OfHex4(r.instr);
    ParseHex4OfHex4(Reported(r));
    DigitValueOfHexDigit(r.dest);
  }

  /** Two records print the same line exactly when they report the same thing. */
  lemma FormatRecordInjective(r1: TraceRecord, r2: TraceRecord)
    ensures FormatRecord(r1) == FormatRecord(r2) <==>
      r1.instr == r2.instr && r1.dest == r2.dest && Reported(r1) == Reported(r2)
  {
    FormatRecordFields(r1);
    FormatRecordFields(r2);
    if r1.instr == r2.instr && r1.dest == r2.dest && Reported(r1) == Reported(r2) {
      assert Hex4(0) == "0000";
    }
  }
}
