/** Decimal and hexadecimal spelling, and cutting text at a separator. */
module Text {
  import opened Core
  import opened Sequences

  const INT64_MIN: int := -0x8000_0000_0000_0000
  const INT64_MAX: int := 0x7FFF_FFFF_FFFF_FFFF

  // --- decimal ---------------------------------------------------------------

  predicate IsDigit(c: char) { '0' <= c <= '9' }

  function Digit(d: nat): (c: char)
    requires d < 10
    ensures IsDigit(c) && DigitValue(c) == d
  {
    ('0' as int + d) as char
  }

  function DigitValue(c: char): (d: nat)
    requires IsDigit(c)
    ensures d < 10
  {
    c as int - '0' as int
  }

  predicate AllDigits(s: string) { forall i :: 0 <= i < |s| ==> IsDigit(s[i]) }

  /** The decimal spelling of a natural number. */
  function Decimal(n: nat): (s: string)
    ensures s != "" && AllDigits(s) && DecimalValue(s) == n
  {
    if n < 10 then [Digit(n)] else
    var front := Decimal(n / 10);
    assert (front + [Digit(n % 10)])[..|front|] == front;
    front + [Digit(n % 10)]
  }

  function DecimalValue(s: string): nat
    requires AllDigits(s)
  {
    if s == "" then 0 else 10 * DecimalValue(s[..|s| - 1]) + DigitValue(s[|s| - 1])
  }

  function SignedDecimal(i: int): string {
    if i < 0 then "-" + Decimal(-i) else Decimal(i)
  }

  /** A whole 64-bit decimal integer, or nothing (wholeInteger). */
  function WholeInteger(s: string): Option<int> {
    var first := if s != "" && s[0] == '-' then 1 else 0;
    if |s| == first || !AllDigits(s[first..]) then None
    else
      var magnitude: int := DecimalValue(s[first..]);
      var v := if first == 1 then -magnitude else magnitude;
      if INT64_MIN <= v <= INT64_MAX then Some(v) else None
  }

  lemma WholeIntegerReadsBack(i: int)
    requires INT64_MIN <= i <= INT64_MAX
    ensures WholeInteger(SignedDecimal(i)) == Some(i)
  {
    if i < 0 {
      assert SignedDecimal(i)[1..] == Decimal(-i);
    } else {
      assert IsDigit(Decimal(i)[0]);
      assert SignedDecimal(i)[0..] == Decimal(i);
    }
  }

  lemma SignedDecimalAlphabet(i: int)
    ensures forall c <- SignedDecimal(i) :: IsDigit(c) || c == '-'
  {
    assert forall c <- Decimal(if i < 0 then -i else i) :: IsDigit(c);
  }

  predicate IsSpace(c: char) { c == ' ' || '\t' <= c <= '\r' }

  function SkipSpaces(s: string): string {
    if s != "" && IsSpace(s[0]) then SkipSpaces(s[1..]) else s
  }

  /** The longest prefix of digits. */
  function LeadingDigits(s: string): (d: string)
    ensures AllDigits(d) && d <= s
    ensures AllDigits(s) ==> d == s
  {
    if s != "" && IsDigit(s[0]) then [s[0]] + LeadingDigits(s[1..]) else ""
  }

  /** What strtol and its relatives read before a range is applied: a sign and a magnitude. */
  function LooseInteger(s: string): (bool, nat) {
    var t := SkipSpaces(s);
    if t != "" && t[0] == '-' then (true, DecimalValue(LeadingDigits(t[1..])))
    else if t != "" && t[0] == '+' then (false, DecimalValue(LeadingDigits(t[1..])))
    else (false, DecimalValue(LeadingDigits(t)))
  }

  /** strtoul cut to 32 bits: out of range is ULONG_MAX, a minus sign negates modulo 2^64. */
  function LooseU32(s: string): nat {
    var (negative, magnitude) := LooseInteger(s);
    if magnitude > 0xFFFF_FFFF_FFFF_FFFF then 0xFFFF_FFFF
    else if negative then (0x1_0000_0000_0000_0000 - magnitude) % 0x1_0000_0000
    else magnitude % 0x1_0000_0000
  }

  /** strtoll: saturates at either end. */
  function LooseI64(s: string): int {
    var (negative, magnitude) := LooseInteger(s);
    var m: int := magnitude;
    var v := if negative then -m else m;
    if v < INT64_MIN then INT64_MIN else if v > INT64_MAX then INT64_MAX else v
  }

  lemma LooseReadsBack(i: int)
    ensures 0 <= i < 0x1_0000_0000 ==> LooseU32(SignedDecimal(i)) == i
    ensures INT64_MIN <= i <= INT64_MAX ==> LooseI64(SignedDecimal(i)) == i
  {
    var s := SignedDecimal(i);
    assert SkipSpaces(s) == s;
    if i < 0 {
      assert s[1..] == Decimal(-i);
      assert LooseInteger(s) == (true, -i);
    } else {
      assert IsDigit(s[0]);
      assert LooseInteger(s) == (false, i);
    }
  }

  // --- hexadecimal -------------------------------------------------------------

  function Nibble(v: nat): (c: char)
    requires v < 16
    ensures NibbleValue(c) == Some(v)
  {
    if v < 10 then Digit(v) else ('a' as int + v - 10) as char
  }

  function NibbleValue(c: char): (v: Option<nat>)
    ensures v.Some? ==> v.value < 16
  {
    if IsDigit(c) then Some(DigitValue(c))
    else if 'a' <= c <= 'f' then Some(c as int - 'a' as int + 10)
    else None
  }

  /** Lower-case, no separator. */
  function ToHex(bytes: Bytes): (s: string)
    ensures |s| == 2 * |bytes|
    ensures forall c <- s :: NibbleValue(c).Some?
  {
    if bytes == [] then "" else [Nibble(bytes[0] / 16), Nibble(bytes[0] % 16)] + ToHex(bytes[1..])
  }

  function FromHex(s: string): (r: Option<Bytes>)
    requires |s| % 2 == 0
    ensures r.Some? ==> 2 * |r.value| == |s|
    decreases |s|
  {
    if s == "" then Some([])
    else
      var (hi, lo) := (NibbleValue(s[0]), NibbleValue(s[1]));
      if hi.None? || lo.None? then None
      else
        var rest := FromHex(s[2..]);
        if rest.None? then None else Some([16 * hi.value + lo.value] + rest.value)
  }

  lemma {:induction false} HexReadsBack(bytes: Bytes)
    ensures FromHex(ToHex(bytes)) == Some(bytes)
  {
    if bytes != [] {
      HexReadsBack(bytes[1..]);
      assert ToHex(bytes)[2..] == ToHex(bytes[1..]);
      assert 16 * (bytes[0] / 16) + bytes[0] % 16 == bytes[0];
      assert bytes == [bytes[0]] + bytes[1..];
    }
  }

  // --- lines -----------------------------------------------------------------------

  /** The lines a reader sees: an unterminated last line counts, an empty one after the last terminator does not. */
  function Lines(s: string): seq<string>
    decreases |s|
  {
    if s == "" then []
    else
      var at := Find(s, '\n');
      if at.None? then [s] else [s[..at.value]] + Lines(s[at.value + 1..])
  }

  function Terminated(lines: seq<string>): string {
    if lines == [] then "" else lines[0] + "\n" + Terminated(lines[1..])
  }

  lemma {:induction false} LinesOfTerminated(lines: seq<string>)
    requires forall l <- lines :: '\n' !in l
    ensures Lines(Terminated(lines)) == lines
  {
    if lines != [] {
      var rest := Terminated(lines[1..]);
      FindAfter(lines[0], '\n', rest);
      assert (lines[0] + "\n" + rest)[..|lines[0]|] == lines[0];
      assert (lines[0] + "\n" + rest)[|lines[0]| + 1..] == rest;
      LinesOfTerminated(lines[1..]);
    }
  }
}
