/** Binary floating point as fields, and the width addPreferredDouble chooses (Cbor.cpp). */
module Floats {
  import opened Core

  // --- shifts ---------------------------------------------------------------------------------

  function Shl(n: nat, b: nat): nat { if b == 0 then n else 2 * Shl(n, b - 1) }

  function Shr(n: nat, b: nat): nat { if b == 0 then n else Shr(n, b - 1) / 2 }

  function Pow2(b: nat): nat { Shl(1, b) }

  /** The low b bits are zero. */
  predicate LowBitsZero(n: nat, b: nat) { Shl(Shr(n, b), b) == n }

  lemma {:induction false} ShlOrder(n: nat, m: nat, b: nat)
    ensures n < m <==> Shl(n, b) < Shl(m, b)
    ensures n == m <==> Shl(n, b) == Shl(m, b)
  {
    if b > 0 {
      ShlOrder(n, m, b - 1);
    }
  }

  lemma {:induction false} ShlSum(n: nat, m: nat, b: nat)
    ensures Shl(n + m, b) == Shl(n, b) + Shl(m, b)
  {
    if b > 0 {
      ShlSum(n, m, b - 1);
    }
  }

  lemma {:induction false} ShlTwice(n: nat, a: nat, b: nat)
    ensures Shl(Shl(n, a), b) == Shl(n, a + b)
  {
    if b > 0 {
      ShlTwice(n, a, b - 1);
    }
  }

  lemma {:induction false} ShlDoubles(n: nat, b: nat)
    ensures Shl(2 * n, b) == 2 * Shl(n, b)
  {
    if b > 0 {
      ShlDoubles(n, b - 1);
    }
  }

  lemma {:induction false} ShrHalves(n: nat, b: nat)
    ensures Shr(2 * n, b + 1) == Shr(n, b)
  {
    if b > 0 {
      ShrHalves(n, b - 1);
    }
  }

  lemma {:induction false} ShrShl(n: nat, b: nat)
    ensures Shr(Shl(n, b), b) == n && LowBitsZero(Shl(n, b), b)
  {
    if b > 0 {
      ShrShl(n, b - 1);
      ShrHalves(Shl(n, b - 1), b - 1);
    }
  }

  lemma {:induction false} ShrBelow(n: nat, m: nat, b: nat)
    requires LowBitsZero(n, b) && n < Shl(m, b)
    ensures Shr(n, b) < m
  {
    ShlOrder(Shr(n, b), m, b);
  }

  lemma {:induction false} Pow2Grows(a: nat, b: nat)
    requires a < b
    ensures 2 * Pow2(a) <= Pow2(b) && Pow2(a) > 0
    decreases b
  {
    Pow2Positive(a);
    if a < b - 1 {
      Pow2Grows(a, b - 1);
    }
  }

  lemma {:induction false} Pow2Positive(a: nat)
    ensures Pow2(a) > 0
  {
    ShlOrder(0, 1, a);
    ShlZero(a);
  }

  lemma {:induction false} ShlZero(b: nat)
    ensures Shl(0, b) == 0
  {
    if b > 0 {
      ShlZero(b - 1);
    }
  }

  // --- formats -----------------------------------------------------------------------------------

  /** A binary64: sign, 11 exponent bits, 52 fraction bits. */
  datatype Double = Double(negative: bool, exponent: nat, fraction: nat)

  /** A narrower format: fraction bits, exponent bias, and the exponent of infinity. */
  datatype Format = Format(bits: nat, bias: nat, top: nat)

  const SINGLE := Format(23, 127, 255)
  const HALF := Format(10, 15, 31)

  datatype Float = Float(negative: bool, exponent: nat, fraction: nat)

  predicate IsDouble(d: Double) { d.exponent <= 2047 && d.fraction < Pow2(52) }

  predicate IsFormat(f: Format) { 0 < f.bits < 52 && 0 < f.bias < 1023 - f.bits && f.top == 2 * f.bias + 1 }

  predicate IsFloat(f: Format, s: Float) { s.exponent <= f.top && s.fraction < Pow2(f.bits) }

  predicate IsNaN(d: Double) { d.exponent == 2047 && d.fraction != 0 }

  predicate Regular(d: Double) { d.exponent != 0 && d.exponent != 2047 }

  // --- widening: what a decoder makes of a short float -------------------------------------------------

  /** The position of the highest bit. */
  function TopBit(n: nat): (k: nat)
    requires n > 0
    ensures Pow2(k) <= n < 2 * Pow2(k)
  {
    if n == 1 then 0 else TopBit(n / 2) + 1
  }

  lemma {:induction false} TopBitIs(n: nat, k: nat)
    requires Pow2(k) <= n < 2 * Pow2(k)
    ensures n > 0 && TopBit(n) == k
  {
    Pow2Positive(k);
    if TopBit(n) < k {
      Pow2Grows(TopBit(n), k);
    } else if k < TopBit(n) {
      Pow2Grows(k, TopBit(n));
    }
  }

  lemma {:induction false} TopBitFits(n: nat, bits: nat)
    requires 0 < n < Pow2(bits)
    ensures TopBit(n) < bits
  {
    if bits < TopBit(n) {
      Pow2Grows(bits, TopBit(n));
    }
  }

  /** Every short float has one double of the same value. */
  function Widen(f: Format, s: Float): Double
    requires IsFormat(f) && IsFloat(f, s)
  {
    if s.exponent == f.top then Double(s.negative, 2047, Shl(s.fraction, 52 - f.bits))
    else if s.exponent > 0 then Double(s.negative, s.exponent + 1023 - f.bias, Shl(s.fraction, 52 - f.bits))
    else if s.fraction == 0 then Double(s.negative, 0, 0)
    else
      var k := TopBit(s.fraction);
      TopBitFits(s.fraction, f.bits);
      Double(s.negative, k + 1024 - f.bias - f.bits, Shl(s.fraction - Pow2(k), 52 - k))
  }

  // --- narrowing: the short float a double equals, if any ---------------------------------------------------

  /** The double is a normal number of the format: its exponent in range, no fraction bit lost. */
  predicate IsNormalIn(f: Format, d: Double)
    requires IsFormat(f)
  {
    1024 - f.bias <= d.exponent <= 1023 + f.bias && LowBitsZero(d.fraction, 52 - f.bits)
  }

  /** Its exponent is one a subnormal of the format has. */
  predicate IsSubnormalCandidate(f: Format, d: Double)
    requires IsFormat(f)
  {
    1024 - f.bias - f.bits <= d.exponent <= 1023 - f.bias
  }

  function Narrow(f: Format, d: Double): Option<Float>
    requires IsFormat(f)
  {
    if d.exponent == 0 then (if d.fraction == 0 then Some(Float(d.negative, 0, 0)) else None)
    else if d.exponent == 2047 then
      if LowBitsZero(d.fraction, 52 - f.bits) then Some(Float(d.negative, f.top, Shr(d.fraction, 52 - f.bits)))
      else None
    else if IsNormalIn(f, d) then Some(Float(d.negative, d.exponent + f.bias - 1023, Shr(d.fraction, 52 - f.bits)))
    else if IsSubnormalCandidate(f, d) then
      var k := d.exponent - (1024 - f.bias - f.bits);
      if LowBitsZero(d.fraction, 52 - k) then Some(Float(d.negative, 0, Pow2(k) + Shr(d.fraction, 52 - k))) else None
    else None
  }

  lemma {:induction false} HighPart(n: nat, k: nat)
    requires k <= 52 && n < Pow2(52) && LowBitsZero(n, 52 - k)
    ensures Shr(n, 52 - k) < Pow2(k)
  {
    ShlTwice(1, k, 52 - k);
    ShrBelow(n, Pow2(k), 52 - k);
  }

  lemma {:induction false} ShiftedBelow(n: nat, k: nat)
    requires k <= 52 && n < Pow2(k)
    ensures Shl(n, 52 - k) < Pow2(52)
  {
    ShlTwice(1, k, 52 - k);
    ShlOrder(n, Pow2(k), 52 - k);
  }

  /** What narrows widens back. */
  lemma {:induction false} NarrowWidens(f: Format, d: Double)
    requires IsFormat(f) && IsDouble(d) && Narrow(f, d).Some?
    ensures IsFloat(f, Narrow(f, d).value) && Widen(f, Narrow(f, d).value) == d
  {
    if d.exponent == 0 {
      Pow2Positive(f.bits);
    } else if d.exponent == 2047 || IsNormalIn(f, d) {
      HighPart(d.fraction, f.bits);
    } else {
      var k := d.exponent - (1024 - f.bias - f.bits);
      HighPart(d.fraction, k);
      TopBitIs(Pow2(k) + Shr(d.fraction, 52 - k), k);
      Pow2Grows(k, f.bits);
    }
  }

  /** What widens narrows back, and widening keeps to the fields' ranges. */
  lemma {:induction false} WidenNarrows(f: Format, s: Float)
    requires IsFormat(f) && IsFloat(f, s)
    ensures IsDouble(Widen(f, s)) && Narrow(f, Widen(f, s)) == Some(s)
  {
    if s.exponent > 0 {
      ShrShl(s.fraction, 52 - f.bits);
      ShiftedBelow(s.fraction, f.bits);
    } else if s.fraction > 0 {
      SubnormalNarrows(f, s);
    } else {
      Pow2Positive(52);
    }
  }

  lemma {:induction false} SubnormalNarrows(f: Format, s: Float)
    requires IsFormat(f) && IsFloat(f, s) && s.exponent == 0 < s.fraction
    ensures IsDouble(Widen(f, s)) && Narrow(f, Widen(f, s)) == Some(s)
  {
    var k := TopBit(s.fraction);
    TopBitFits(s.fraction, f.bits);
    CandidateNarrows(f, s.negative, k, s.fraction - Pow2(k));
  }

  lemma {:induction false} CandidateNarrows(f: Format, negative: bool, k: nat, rest: nat)
    requires IsFormat(f) && k < f.bits && rest < Pow2(k)
    ensures var d := Double(negative, k + 1024 - f.bias - f.bits, Shl(rest, 52 - k));
      IsDouble(d) && Narrow(f, d) == Some(Float(negative, 0, Pow2(k) + rest))
  {
    ShrShl(rest, 52 - k);
    ShiftedBelow(rest, k);
  }

  // --- values: multiples of the least binary64 subnormal -----------------------------------------------------

  predicate Finite(d: Double) { d.exponent < 2047 }

  function Magnitude(d: Double): nat {
    if d.exponent == 0 then d.fraction else Shl(Pow2(52) + d.fraction, d.exponent - 1)
  }

  function MagnitudeIn(f: Format, s: Float): nat
    requires IsFormat(f)
  {
    Shl(if s.exponent == 0 then s.fraction else Shl(Pow2(f.bits) + s.fraction, s.exponent - 1), 1075 - f.bias - f.bits)
  }

  lemma {:induction false} ShiftSum(k: nat, n: nat)
    requires k <= 52
    ensures Pow2(52) + Shl(n, 52 - k) == Shl(Pow2(k) + n, 52 - k)
  {
    ShlTwice(1, k, 52 - k);
    ShlSum(Pow2(k), n, 52 - k);
  }

  lemma {:induction false} WideningKeepsValue(f: Format, s: Float)
    requires IsFormat(f) && IsFloat(f, s) && s.exponent < f.top
    ensures Finite(Widen(f, s)) && Magnitude(Widen(f, s)) == MagnitudeIn(f, s)
  {
    if s.exponent > 0 {
      var m := Pow2(f.bits) + s.fraction;
      ShiftSum(f.bits, s.fraction);
      ShlTwice(m, 52 - f.bits, s.exponent + 1022 - f.bias);
      ShlTwice(m, s.exponent - 1, 1075 - f.bias - f.bits);
    } else if s.fraction > 0 {
      var k := TopBit(s.fraction);
      TopBitFits(s.fraction, f.bits);
      ShiftSum(k, s.fraction - Pow2(k));
      ShlTwice(s.fraction, 52 - k, k + 1023 - f.bias - f.bits);
    } else {
      ShlZero(1075 - f.bias - f.bits);
    }
  }

  lemma {:induction false} MagnitudeRange(d: Double)
    requires IsDouble(d)
    ensures Magnitude(d) < Pow2(52 + d.exponent)
    ensures d.exponent > 0 ==> Pow2(51 + d.exponent) <= Magnitude(d)
  {
    if d.exponent > 0 {
      ShlOrder(Pow2(52) + d.fraction, Pow2(53), d.exponent - 1);
      ShlTwice(1, 53, d.exponent - 1);
      ShlOrder(Pow2(52) + d.fraction, Pow2(52), d.exponent - 1);
      ShlTwice(1, 52, d.exponent - 1);
    }
  }

  lemma {:induction false} LargerExponentLargerValue(d: Double, e: Double)
    requires IsDouble(d) && IsDouble(e) && d.exponent < e.exponent
    ensures Magnitude(d) < Magnitude(e)
  {
    MagnitudeRange(d);
    MagnitudeRange(e);
    if 52 + d.exponent < 51 + e.exponent {
      Pow2Grows(52 + d.exponent, 51 + e.exponent);
    }
  }

  /** A finite double is determined by its sign and value. */
  lemma {:induction false} OneDoublePerValue(d: Double, e: Double)
    requires IsDouble(d) && IsDouble(e) && d.negative == e.negative && Magnitude(d) == Magnitude(e)
    ensures d == e
  {
    if d.exponent < e.exponent {
      LargerExponentLargerValue(d, e);
    } else if e.exponent < d.exponent {
      LargerExponentLargerValue(e, d);
    } else if d.exponent > 0 {
      ShlOrder(Pow2(52) + d.fraction, Pow2(52) + e.fraction, d.exponent - 1);
    }
  }

  /** Narrowing finds the short float of equal value, if there is one. */
  lemma {:induction false} NarrowingIsByValue(f: Format, d: Double, s: Float)
    requires IsFormat(f) && IsDouble(d) && Finite(d) && IsFloat(f, s) && s.exponent < f.top
    ensures Narrow(f, d) == Some(s) <==> s.negative == d.negative && MagnitudeIn(f, s) == Magnitude(d)
  {
    WidenNarrows(f, s);
    WideningKeepsValue(f, s);
    if s.negative == d.negative && MagnitudeIn(f, s) == Magnitude(d) {
      OneDoublePerValue(d, Widen(f, s));
    }
    if Narrow(f, d) == Some(s) {
      NarrowWidens(f, d);
    }
  }

  // --- the width on the wire -------------------------------------------------------------------------------------

  datatype Wire = Wide(d: Double) | AsSingle(s: Float) | AsHalf(s: Float)

  /** The shortest form of equal value, as section 4.2.1 of RFC 8949 prefers it. */
  function Shortest(d: Double): Wire {
    if Narrow(HALF, d).Some? then AsHalf(Narrow(HALF, d).value)
    else if Narrow(SINGLE, d).Some? then AsSingle(Narrow(SINGLE, d).value)
    else Wide(d)
  }

  predicate ForcedWide(d: Double) { Regular(d) && !IsNormalIn(SINGLE, d) && !IsSubnormalCandidate(SINGLE, d) }

  predicate ForcedSingle(d: Double) {
    Regular(d) && IsNormalIn(SINGLE, d) && !IsNormalIn(HALF, d) && !IsSubnormalCandidate(HALF, d)
  }

  /** The width is decided here for the values the library's own reduction would shift out of range. */
  function Preferred(d: Double): Wire {
    if ForcedWide(d) then Wide(d)
    else if ForcedSingle(d) then AsSingle(Narrow(SINGLE, d).value)
    else Shortest(d)
  }

  lemma {:induction false} FewerLowBits(n: nat, a: nat, b: nat)
    requires LowBitsZero(n, a) && b <= a
    ensures LowBitsZero(n, b)
  {
    ShlTwice(Shr(n, a), a - b, b);
    ShrShl(Shl(Shr(n, a), a - b), b);
  }

  lemma {:induction false} HalvesAreSingles(d: Double)
    requires Regular(d) && Narrow(HALF, d).Some?
    ensures IsNormalIn(SINGLE, d)
  {
    if IsNormalIn(HALF, d) {
      FewerLowBits(d.fraction, 42, 29);
    } else {
      FewerLowBits(d.fraction, 52 - (d.exponent - 999), 29);
    }
  }

  /** The shortcut never changes the bytes. */
  lemma {:induction false} ShortcutIsShortest(d: Double)
    ensures Preferred(d) == Shortest(d)
  {
    if Regular(d) && Narrow(HALF, d).Some? {
      HalvesAreSingles(d);
    }
  }

  /** binary64 is forced only where no binary32 has the value. */
  lemma {:induction false} ForcedWideIsNoSingle(d: Double, s: Float)
    requires IsDouble(d) && ForcedWide(d) && IsFloat(SINGLE, s) && s.exponent < SINGLE.top
    ensures s.negative != d.negative || MagnitudeIn(SINGLE, s) != Magnitude(d)
  {
    NarrowingIsByValue(SINGLE, d, s);
  }

  /** binary32 is forced only where a binary32 has the value and no binary16 does. */
  lemma {:induction false} ForcedSingleIsNoHalf(d: Double, s: Float)
    requires IsDouble(d) && ForcedSingle(d) && IsFloat(HALF, s) && s.exponent < HALF.top
    ensures s.negative != d.negative || MagnitudeIn(HALF, s) != Magnitude(d)
    ensures Preferred(d).AsSingle? && MagnitudeIn(SINGLE, Preferred(d).s) == Magnitude(d)
  {
    NarrowingIsByValue(HALF, d, s);
    NarrowWidens(SINGLE, d);
    NarrowingIsByValue(SINGLE, d, Preferred(d).s);
  }

  function Unwired(w: Wire): Double
    requires w.AsSingle? ==> IsFloat(SINGLE, w.s)
    requires w.AsHalf? ==> IsFloat(HALF, w.s)
  {
    match w
    case Wide(d) => d
    case AsSingle(s) => Widen(SINGLE, s)
    case AsHalf(s) => Widen(HALF, s)
  }

  predicate IsWire(w: Wire) {
    match w
    case Wide(d) => IsDouble(d)
    case AsSingle(s) => IsFloat(SINGLE, s)
    case AsHalf(s) => IsFloat(HALF, s)
  }

  lemma {:induction false} FloatsReadBack(d: Double)
    requires IsDouble(d)
    ensures IsWire(Preferred(d)) && Unwired(Preferred(d)) == d
  {
    ShortcutIsShortest(d);
    if Narrow(HALF, d).Some? {
      NarrowWidens(HALF, d);
    } else if Narrow(SINGLE, d).Some? {
      NarrowWidens(SINGLE, d);
    }
  }
}
