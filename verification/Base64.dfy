/** The base64 of section 4 of RFC 4648 and the strict decoder an import reads it with (decodeBase64). */
module Base64 {
  import opened Core

  const PAD: byte := 61 // '='

  /** The decoder's digit: negative outside the alphabet. */
  function Value(c: byte): (v: int)
    ensures -1 <= v < 64
    ensures v >= 0 ==> c != PAD
  {
    if 65 <= c <= 90 then c - 65
    else if 97 <= c <= 122 then c - 97 + 26
    else if 48 <= c <= 57 then c - 48 + 52
    else if c == 43 then 62
    else if c == 47 then 63
    else -1
  }

  /** The alphabet of the encoding. */
  function Letter(v: nat): (c: byte)
    requires v < 64
    ensures Value(c) == v
    ensures 43 <= c <= 122 && c != 58
  {
    if v < 26 then 65 + v
    else if v < 52 then 97 + (v - 26)
    else if v < 62 then 48 + (v - 52)
    else if v == 62 then 43
    else 47
  }

  // --- encoding: three octets become four letters, the last group is padded ------------

  function EncodeGroup(g: Bytes): (s: Bytes)
    requires 1 <= |g| <= 3
    ensures |s| == 4
  {
    var b1 := if |g| > 1 then g[1] else 0;
    var b2 := if |g| > 2 then g[2] else 0;
    [Letter(g[0] / 4), Letter((g[0] % 4) * 16 + b1 / 16),
     if |g| > 1 then Letter((b1 % 16) * 4 + b2 / 64) else PAD,
     if |g| > 2 then Letter(b2 % 64) else PAD]
  }

  function Encode(b: Bytes): (s: Bytes)
    ensures |s| % 4 == 0
    ensures s == [] <==> b == []
  {
    if b == [] then [] else if |b| <= 3 then EncodeGroup(b) else EncodeGroup(b[..3]) + Encode(b[3..])
  }

  // --- decoding ---------------------------------------------------------------------

  function Padding(g: Bytes): (p: nat)
    requires |g| == 4
    ensures p <= 2
  {
    if g[2] == PAD then 2 else if g[3] == PAD then 1 else 0
  }

  /** Four letters: padding only in the last group, and only as its last one or two characters. */
  predicate GroupOk(g: Bytes, last: bool)
    requires |g| == 4
  {
    && Value(g[0]) >= 0 && Value(g[1]) >= 0
    && (if g[2] == PAD then last && g[3] == PAD
        else Value(g[2]) >= 0 && (if g[3] == PAD then last else Value(g[3]) >= 0))
  }

  function Sextet(c: byte): (v: nat)
    ensures v < 64
  {
    if Value(c) < 0 then 0 else Value(c)
  }

  /** Four sextets regrouped as three octets. */
  function Regroup(v0: nat, v1: nat, v2: nat, v3: nat): (b: Bytes)
    requires v0 < 64 && v1 < 64 && v2 < 64 && v3 < 64
    ensures |b| == 3
  {
    [v0 * 4 + v1 / 16, (v1 % 16) * 16 + v2 / 4, (v2 % 4) * 64 + v3]
  }

  function DecodeGroup(g: Bytes, last: bool): Option<Bytes>
    requires |g| == 4
  {
    if GroupOk(g, last)
    then Some(Regroup(Sextet(g[0]), Sextet(g[1]), Sextet(g[2]), Sextet(g[3]))[..3 - Padding(g)]) else None
  }

  /** Whole groups of four, one after another. */
  function DecodeGroups(s: Bytes): Option<Bytes>
    decreases |s|
  {
    if |s| < 4 then Some([])
    else
      var first := DecodeGroup(s[..4], |s| == 4);
      if first.None? then None
      else
        var rest := DecodeGroups(s[4..]);
        if rest.None? then None else Some(first.value + rest.value)
  }

  function Decode(s: Bytes): Option<Bytes> {
    if s == [] || |s| % 4 != 0 then None else DecodeGroups(s)
  }

  // --- the decoder's loops -------------------------------------------------------------

  ghost predicate PrefixOk(g: Bytes, last: bool, j: nat)
    requires |g| == 4 && j <= 4
  {
    && (forall k :: 0 <= k < j ==> if g[k] == PAD then last && k >= 2 else Value(g[k]) >= 0)
    && (j == 4 && g[2] == PAD ==> g[3] == PAD)
  }

  /** The inner loop: four characters, one after another. */
  method DecodeQuad(g: Bytes, last: bool) returns (r: Option<Bytes>)
    requires |g| == 4
    ensures r == DecodeGroup(g, last)
  {
    var values := [0, 0, 0, 0];
    var padding := 0;
    for j := 0 to 4
      invariant |values| == 4 && PrefixOk(g, last, j)
      invariant forall k :: 0 <= k < 4 ==> 0 <= values[k] < 64 && values[k] == if k < j then Sextet(g[k]) else 0
      invariant padding == (if j > 2 && g[2] == PAD then 1 else 0) + (if j > 3 && g[3] == PAD then 1 else 0)
    {
      if g[j] == PAD {
        if !last || j < 2 {
          return None;
        }
        padding := padding + 1;
        continue;
      }
      if padding != 0 {
        return None;
      }
      var v := Value(g[j]);
      if v < 0 {
        return None;
      }
      values := values[j := v];
    }
    var out := ShiftOut(values[0], values[1], values[2], values[3], padding);
    return Some(out);
  }

  /** The octets of the 24-bit word, as many as the padding leaves. */
  method ShiftOut(v0: nat, v1: nat, v2: nat, v3: nat, padding: nat) returns (out: Bytes)
    requires v0 < 64 && v1 < 64 && v2 < 64 && v3 < 64 && padding <= 2
    ensures out == Regroup(v0, v1, v2, v3)[..3 - padding]
  {
    var triple := v0 * 0x4_0000 + v1 * 0x1000 + v2 * 0x40 + v3;
    TripleRegroups(v0, v1, v2, v3);
    out := [(triple / 0x1_0000) % 256];
    if padding < 2 {
      out := out + [(triple / 0x100) % 256];
    }
    if padding < 1 {
      out := out + [triple % 256];
    }
  }

  /** The 24-bit word the source shifts out holds the three octets. */
  lemma {:induction false} TripleRegroups(v0: nat, v1: nat, v2: nat, v3: nat)
    requires v0 < 64 && v1 < 64 && v2 < 64 && v3 < 64
    ensures var t := v0 * 0x4_0000 + v1 * 0x1000 + v2 * 0x40 + v3;
            Regroup(v0, v1, v2, v3) == [(t / 0x1_0000) % 256, (t / 0x100) % 256, t % 256]
  {
    var t := v0 * 0x4_0000 + v1 * 0x1000 + v2 * 0x40 + v3;
    var b0: int, b1: int, b2: int := v0 * 4 + v1 / 16, (v1 % 16) * 16 + v2 / 4, (v2 % 4) * 64 + v3;
    assert v1 == 16 * (v1 / 16) + v1 % 16 && v2 == 4 * (v2 / 4) + v2 % 4;
    assert t == b0 * 0x1_0000 + b1 * 0x100 + b2;
    WordOctets(b0, b1, b2);
  }

  lemma WordOctets(b0: int, b1: int, b2: int)
    requires 0 <= b0 < 256 && 0 <= b1 < 256 && 0 <= b2 < 256
    ensures var t := b0 * 0x1_0000 + b1 * 0x100 + b2;
            (t / 0x1_0000) % 256 == b0 && (t / 0x100) % 256 == b1 && t % 256 == b2
  {
    var t := b0 * 0x1_0000 + b1 * 0x100 + b2;
    assert t / 0x1_0000 == b0;
    assert t / 0x100 == b0 * 0x100 + b1;
  }

  /** decodeBase64. */
  method DecodeBase64(encoded: Bytes) returns (r: Option<Bytes>)
    ensures r == Decode(encoded)
  {
    if encoded == [] || |encoded| % 4 != 0 {
      return None;
    }
    var out := [];
    var i := 0;
    assert encoded[0..] == encoded;
    ghost var whole, groups, done := DecodeGroups(encoded), |encoded| / 4, 0;
    assert |encoded| == 4 * groups;
    PrependedNothing(whole);
    while i < |encoded|
      invariant i == 4 * done && 0 <= done <= groups
      invariant whole == Prepended(out, DecodeGroups(encoded[i..]))
    {
      var group := DecodeQuad(encoded[i..i + 4], i + 4 == |encoded|);
      GroupsStep(encoded, i);
      if group.None? {
        return None;
      }
      PrependedTwice(out, group.value, DecodeGroups(encoded[i + 4..]));
      out := out + group.value;
      i, done := i + 4, done + 1;
    }
    assert encoded[i..] == [] && out + [] == out;
    return Some(out);
  }

  function Prepended(a: Bytes, b: Option<Bytes>): Option<Bytes> { if b.None? then None else Some(a + b.value) }

  lemma PrependedNothing(b: Option<Bytes>)
    ensures Prepended([], b) == b
  {
    if b.Some? { assert [] + b.value == b.value; }
  }

  lemma PrependedTwice(a: Bytes, b: Bytes, c: Option<Bytes>)
    ensures Prepended(a, Prepended(b, c)) == Prepended(a + b, c)
  {
    if c.Some? { assert a + (b + c.value) == a + b + c.value; }
  }

  lemma {:induction false} GroupsStep(s: Bytes, i: nat)
    requires i + 4 <= |s|
    ensures var g := DecodeGroup(s[i..i + 4], i + 4 == |s|);
            DecodeGroups(s[i..]) == if g.None? then None else Prepended(g.value, DecodeGroups(s[i + 4..]))
  {
    assert s[i..][..4] == s[i..i + 4] && s[i..][4..] == s[i + 4..];
  }

  // --- the decoder inverts the encoding ---------------------------------------------------

  lemma {:induction false} GroupReadsBack(g: Bytes, last: bool)
    requires 1 <= |g| <= 3 && (|g| < 3 ==> last)
    ensures DecodeGroup(EncodeGroup(g), last) == Some(g)
  {
    var s := EncodeGroup(g);
    var b0 := g[0];
    var b1 := if |g| > 1 then g[1] else 0;
    var b2 := if |g| > 2 then g[2] else 0;
    assert Sextet(PAD) == 0;
    assert Sextet(s[0]) == b0 / 4 && Sextet(s[1]) == (b0 % 4) * 16 + b1 / 16;
    assert Sextet(s[2]) == (b1 % 16) * 4 + b2 / 64 && Sextet(s[3]) == b2 % 64;
    SextetsRegroup(b0, b1, b2);
    assert g == [b0, b1, b2][..|g|] && Padding(s) == 3 - |g|;
  }

  lemma {:induction false} SextetsRegroup(b0: byte, b1: byte, b2: byte)
    ensures Regroup(b0 / 4, (b0 % 4) * 16 + b1 / 16, (b1 % 16) * 4 + b2 / 64, b2 % 64) == [b0, b1, b2]
  {
    var h0, l0, h1, l1, h2, l2 := b0 / 4, b0 % 4, b1 / 16, b1 % 16, b2 / 64, b2 % 64;
    assert b0 == 4 * h0 + l0 && b1 == 16 * h1 + l1 && b2 == 64 * h2 + l2;
    assert (l0 * 16 + h1) / 16 == l0 && (l0 * 16 + h1) % 16 == h1;
    assert (l1 * 4 + h2) / 4 == l1 && (l1 * 4 + h2) % 4 == h2;
  }

  lemma {:induction false} GroupsReadBack(b: Bytes)
    ensures DecodeGroups(Encode(b)) == Some(b)
  {
    if b == [] {
    } else if |b| <= 3 {
      GroupReadsBack(b, true);
      var s := Encode(b);
      assert s[..4] == s && s[4..] == [];
      assert b + [] == b;
    } else {
      var first, rest := EncodeGroup(b[..3]), Encode(b[3..]);
      assert (first + rest)[..4] == first && (first + rest)[4..] == rest;
      GroupReadsBack(b[..3], false);
      GroupsReadBack(b[3..]);
      assert b[..3] + b[3..] == b;
    }
  }

  /** Every non-empty value reads back from its encoding; the empty one has no encoding the decoder takes. */
  lemma {:induction false} EncodingReadsBack(b: Bytes)
    ensures Decode(Encode(b)) == if b == [] then None else Some(b)
  {
    GroupsReadBack(b);
  }

  lemma {:induction false} EncodingAlphabet(b: Bytes)
    ensures forall c <- Encode(b) :: 43 <= c <= 122
  {
    if |b| > 3 { EncodingAlphabet(b[3..]); }
  }
}
