/** The bytes of RFC 8949 the codec writes and reads: item heads, big-endian numbers, floats. */
module CborFormat {
  import opened Core
  import opened Floats

  // --- big-endian numbers -----------------------------------------------------------------------

  function Lim(k: nat): (r: nat)
    ensures r > 0
  {
    if k == 0 then 1 else 256 * Lim(k - 1)
  }

  function Big(n: nat, k: nat): (b: Bytes)
    ensures |b| == k
  {
    if k == 0 then [] else Big(n / 256, k - 1) + [n % 256]
  }

  function FromBig(b: Bytes): (n: nat)
    ensures n < Lim(|b|)
  {
    if b == [] then 0
    else
      var last: int := b[|b| - 1];
      256 * FromBig(b[..|b| - 1]) + last
  }

  lemma {:induction false} BigReadsBack(n: nat, k: nat)
    requires n < Lim(k)
    ensures FromBig(Big(n, k)) == n
  {
    if k > 0 {
      BigReadsBack(n / 256, k - 1);
      assert Big(n, k)[..k - 1] == Big(n / 256, k - 1);
    }
  }

  // --- item heads -------------------------------------------------------------------------------------

  type Major = m: int | 0 <= m < 8

  const TOP := 0x1_0000_0000_0000_0000

  lemma {:induction false} Widths()
    ensures Lim(1) == 0x100 && Lim(2) == 0x1_0000 && Lim(4) == 0x1_0000_0000 && Lim(8) == TOP
  {
  }

  /** How many bytes the argument takes after the first: the fewest that hold it. */
  function ArgumentBytes(n: nat): (k: nat)
    ensures k in {0, 1, 2, 4, 8}
  {
    if n < 24 then 0 else if n < 0x100 then 1 else if n < 0x1_0000 then 2 else if n < 0x1_0000_0000 then 4 else 8
  }

  function InfoOf(n: nat): (i: nat)
    ensures i < 28
  {
    if n < 24 then n else if n < 0x100 then 24 else if n < 0x1_0000 then 25 else if n < 0x1_0000_0000 then 26 else 27
  }

  /** The head of an item, in its shortest form. */
  function HeadOf(major: Major, n: nat): (b: Bytes)
    ensures |b| == 1 + ArgumentBytes(n)
  {
    var first: int := major * 32 + InfoOf(n);
    [first] + Big(n, ArgumentBytes(n))
  }

  /** A head as read: any width is understood. */
  datatype Head = Head(major: Major, info: nat, n: nat, size: nat)

  function WidthOf(info: nat): Option<nat> {
    if info < 24 then Some(0) else if info == 24 then Some(1) else if info == 25 then Some(2)
    else if info == 26 then Some(4) else if info == 27 then Some(8) else if info == 31 then Some(0) else None
  }

  /** The top three bits of a byte; the other five are the rest. */
  function MajorOf(first: byte): (m: Major)
    ensures 32 * m <= first < 32 * m + 32
  {
    if first < 128 then (if first < 64 then (if first < 32 then 0 else 1) else if first < 96 then 2 else 3)
    else if first < 192 then (if first < 160 then 4 else 5)
    else if first < 224 then 6 else 7
  }

  function ReadHead(b: Bytes): (r: Option<Head>)
    ensures r.Some? ==> 0 < r.value.size <= |b|
  {
    if b == [] then None
    else
      var major := MajorOf(b[0]);
      var first: int := b[0];
      var info: nat := first - 32 * major;
      var width := WidthOf(info);
      if width.None? || |b| < 1 + width.value then None
      else Some(Head(major, info, if width.value == 0 then info else FromBig(b[1..1 + width.value]), 1 + width.value))
  }

  lemma {:induction false} ArgumentReadsBack(n: nat)
    requires n < TOP
    ensures var k := ArgumentBytes(n);
      WidthOf(InfoOf(n)) == Some(k) && n == if k == 0 then InfoOf(n) else FromBig(Big(n, k))
  {
    Widths();
    if ArgumentBytes(n) > 0 {
      BigReadsBack(n, ArgumentBytes(n));
    }
  }

  lemma {:induction false} HeadReadsBack(major: Major, n: nat, rest: Bytes)
    requires n < TOP
    ensures ReadHead(HeadOf(major, n) + rest) == Some(Head(major, InfoOf(n), n, 1 + ArgumentBytes(n)))
    ensures (HeadOf(major, n) + rest)[1 + ArgumentBytes(n)..] == rest
  {
    var b, k := HeadOf(major, n) + rest, ArgumentBytes(n);
    ArgumentReadsBack(n);
    assert b[1..1 + k] == Big(n, k);
  }

  // --- floats ---------------------------------------------------------------------------------------------

  /** Sign, exponent and fraction as one number. */
  function Packed(negative: bool, exponent: nat, fraction: nat, bits: nat, top: nat): nat {
    Shl(exponent + if negative then top + 1 else 0, bits) + fraction
  }

  lemma {:induction false} Powers()
    ensures Pow2(52) == 0x10_0000_0000_0000 && Pow2(23) == 0x80_0000 && Pow2(10) == 0x400
  {
    assert Shl(1, 5) == 32 && Shl(32, 5) == 1024 && Shl(1024, 3) == 0x2000;
    ShlTwice(1, 5, 5);
    ShlTwice(1, 10, 3);
    ShlTwice(1, 13, 10);
    ShlTimes(0x2000, 10);
    ShlTwice(1, 13, 13);
    ShlTimes(0x2000, 13);
    ShlTwice(1, 26, 26);
    ShlTimes(0x400_0000, 26);
  }

  lemma {:induction false} ShlTimes(n: nat, b: nat)
    ensures Shl(n, b) == n * Pow2(b)
  {
    if b > 0 {
      ShlTimes(n, b - 1);
    }
  }

  /** The number taken apart again. */
  function Fields(n: nat, bits: nat, top: nat): Float {
    var high := Shr(n, bits);
    RemainderFits(n, bits);
    Float(high > top, if high > top then high - top - 1 else high, n - Shl(high, bits))
  }

  lemma {:induction false} RemainderFits(n: nat, b: nat)
    ensures Shl(Shr(n, b), b) <= n < Shl(Shr(n, b), b) + Pow2(b)
  {
    if b > 0 {
      RemainderFits(n, b - 1);
      var half := Shr(n, b - 1);
      ShlDoubles(half / 2, b - 1);
      if half % 2 == 1 {
        ShlSum(half - 1, 1, b - 1);
      }
    }
  }

  lemma {:induction false} HighPartIs(n: nat, high: nat, b: nat)
    requires Shl(high, b) <= n < Shl(high, b) + Pow2(b)
    ensures Shr(n, b) == high
  {
    RemainderFits(n, b);
    if high < Shr(n, b) {
      ShlSum(high, 1, b);
      ShlOrder(Shr(n, b), high + 1, b);
    } else if Shr(n, b) < high {
      ShlSum(Shr(n, b), 1, b);
      ShlOrder(high, Shr(n, b) + 1, b);
    }
  }

  lemma {:induction false} FieldsReadBack(negative: bool, exponent: nat, fraction: nat, bits: nat, top: nat)
    requires exponent <= top && fraction < Pow2(bits)
    ensures var n := Packed(negative, exponent, fraction, bits, top);
      n < Shl(2 * (top + 1), bits) && Fields(n, bits, top) == Float(negative, exponent, fraction)
  {
    var high := exponent + if negative then top + 1 else 0;
    HighPartIs(Packed(negative, exponent, fraction, bits, top), high, bits);
    ShlSum(high, 1, bits);
    ShlOrder(2 * (top + 1), high + 1, bits);
  }

  lemma {:induction false} FieldsFit(n: nat, bits: nat, top: nat)
    requires n < Shl(2 * (top + 1), bits)
    ensures Fields(n, bits, top).exponent <= top && Fields(n, bits, top).fraction < Pow2(bits)
  {
    RemainderFits(n, bits);
    ShlOrder(2 * (top + 1), Shr(n, bits), bits);
  }

  lemma {:induction false} Ranges()
    ensures Shl(4096, 52) == TOP && Shl(512, 23) == 0x1_0000_0000 && Shl(64, 10) == 0x1_0000
  {
    Powers();
    ShlTimes(4096, 52);
    ShlTimes(512, 23);
    ShlTimes(64, 10);
  }

  function DoubleNumber(d: Double): nat { Packed(d.negative, d.exponent, d.fraction, 52, 2047) }

  function FloatNumber(f: Format, s: Float): nat { Packed(s.negative, s.exponent, s.fraction, f.bits, f.top) }

  function DoubleOf(n: nat): (d: Double)
    requires n < TOP
    ensures IsDouble(d)
  {
    Ranges();
    FieldsFit(n, 52, 2047);
    var f := Fields(n, 52, 2047);
    Double(f.negative, f.exponent, f.fraction)
  }

  function SingleOf(n: nat): (s: Float)
    requires n < 0x1_0000_0000
    ensures IsFloat(SINGLE, s)
  {
    Ranges();
    FieldsFit(n, 23, 255);
    Fields(n, 23, 255)
  }

  function HalfOf(n: nat): (s: Float)
    requires n < 0x1_0000
    ensures IsFloat(HALF, s)
  {
    Ranges();
    FieldsFit(n, 10, 31);
    Fields(n, 10, 31)
  }

  lemma {:induction false} DoubleNumberReadsBack(d: Double)
    requires IsDouble(d)
    ensures DoubleNumber(d) < TOP && DoubleOf(DoubleNumber(d)) == d
  {
    Ranges();
    FieldsReadBack(d.negative, d.exponent, d.fraction, 52, 2047);
  }

  lemma {:induction false} SingleNumberReadsBack(s: Float)
    requires IsFloat(SINGLE, s)
    ensures FloatNumber(SINGLE, s) < 0x1_0000_0000 && SingleOf(FloatNumber(SINGLE, s)) == s
  {
    Ranges();
    FieldsReadBack(s.negative, s.exponent, s.fraction, 23, 255);
  }

  lemma {:induction false} HalfNumberReadsBack(s: Float)
    requires IsFloat(HALF, s)
    ensures FloatNumber(HALF, s) < 0x1_0000 && HalfOf(FloatNumber(HALF, s)) == s
  {
    Ranges();
    FieldsReadBack(s.negative, s.exponent, s.fraction, 10, 31);
  }

  /** A float on the wire. */
  function FloatBytes(w: Wire): Bytes {
    match w
    case Wide(d) => [0xFB] + Big(DoubleNumber(d), 8)
    case AsSingle(s) => [0xFA] + Big(FloatNumber(SINGLE, s), 4)
    case AsHalf(s) => [0xF9] + Big(FloatNumber(HALF, s), 2)
  }

  /** A float as read: every width becomes a binary64. */
  function FloatRead(h: Head): Double
    requires (h.info == 25 && h.n < 0x1_0000) || (h.info == 26 && h.n < 0x1_0000_0000) || (h.info == 27 && h.n < TOP)
  {
    if h.info == 25 then Widen(HALF, HalfOf(h.n))
    else if h.info == 26 then Widen(SINGLE, SingleOf(h.n))
    else DoubleOf(h.n)
  }
}
