/** DER lengths (DerLength.h), elements cut off the front of a span (Module.cpp), and EC points (EcEncoding.cpp). */
module Der {
  import opened Core

  const MAX_LENGTH_OCTETS: nat := 4

  datatype DerLength = DerLength(length: nat, lengthOctets: nat)

  /** The value of octets read most significant first. */
  function BigEndian(s: Bytes): nat {
    if s == [] then 0 else 256 * BigEndian(s[..|s| - 1]) + s[|s| - 1]
  }

  /** How a definite length can be spelled: the short form, or a count of one to four octets and that many octets. */
  ghost predicate SpellsLength(s: Bytes, n: nat) {
    || (|s| == 1 && s[0] == n < 128)
    || (2 <= |s| <= 1 + MAX_LENGTH_OCTETS && s[0] == 128 + |s| - 1 && BigEndian(s[1..]) == n)
  }

  /** The definite length at a position, accepted only when what it declares lies inside the data. */
  function ReadLength(data: Bytes, pos: nat): (r: Option<DerLength>)
    ensures r.Some? ==> pos + r.value.lengthOctets + r.value.length <= |data|
                        && SpellsLength(data[pos..pos + r.value.lengthOctets], r.value.length)
  {
    if pos >= |data| then None
    else if data[pos] < 128 then
      if data[pos] > |data| - pos - 1 then None else Some(DerLength(data[pos], 1))
    else
      var octets := data[pos] - 128;
      if octets == 0 || octets > MAX_LENGTH_OCTETS || octets > |data| - pos - 1 then None
      else
        var value := BigEndian(data[pos + 1..pos + 1 + octets]);
        assert data[pos..pos + 1 + octets][1..] == data[pos + 1..pos + 1 + octets];
        if value > |data| - pos - (1 + octets) then None else Some(DerLength(value, 1 + octets))
  }

  /** readDerLength: the accumulating loop computes that length. */
  method ReadDerLength(data: Bytes, pos: nat) returns (r: Option<DerLength>)
    ensures r == ReadLength(data, pos)
  {
    if pos >= |data| {
      return None;
    }
    var first := data[pos];
    var value: nat := first;
    var lengthOctets := 1;
    if first >= 128 {
      var octets := first - 128;
      if octets == 0 || octets > MAX_LENGTH_OCTETS || octets > |data| - pos - 1 {
        return None;
      }
      value := 0;
      for i := 0 to octets
        invariant value == BigEndian(data[pos + 1..pos + 1 + i])
      {
        var octet := data[pos + 1 + i];
        assert data[pos + 1..pos + 1 + i + 1] == data[pos + 1..pos + 1 + i] + [octet];
        value := value * 256 + octet;
      }
      lengthOctets := 1 + octets;
    }
    if value > |data| - pos - lengthOctets {
      return None;
    }
    return Some(DerLength(value, lengthOctets));
  }

  /** Whatever spelling of its length an element uses, the reader finds it. */
  lemma {:induction false} SpelledLengthIsRead(before: Bytes, spelling: Bytes, content: Bytes, rest: Bytes)
    requires SpellsLength(spelling, |content|)
    ensures ReadLength(before + spelling + content + rest, |before|) == Some(DerLength(|content|, |spelling|))
  {
    var data := before + spelling + content + rest;
    assert data[|before|] == spelling[0];
    if spelling[0] >= 128 {
      assert data[|before| + 1..|before| + 1 + (spelling[0] - 128)] == spelling[1..];
    }
  }

  // --- elements ----------------------------------------------------------------

  /** One element at the front of some bytes: its whole encoding, its content, and what follows it. */
  datatype Element = Element(whole: Bytes, content: Bytes, rest: Bytes)

  /** An encoding: a low tag number, some spelling of the content's length, the content. */
  ghost predicate Encodes(whole: Bytes, tag: byte, content: Bytes) {
    tag % 32 != 31 && exists spelling :: SpellsLength(spelling, |content|) && whole == [tag] + spelling + content
  }

  function TakeElement(data: Bytes): Option<Element> {
    if data == [] || data[0] % 32 == 31 then None
    else
      var len := ReadLength(data, 1);
      if len.None? then None
      else
        var header := 1 + len.value.lengthOctets;
        Some(Element(data[..header + len.value.length], data[header..header + len.value.length],
                     data[header + len.value.length..]))
  }

  lemma {:induction false} FrontElementIsCut(tag: byte, spelling: Bytes, content: Bytes, rest: Bytes)
    requires tag % 32 != 31 && SpellsLength(spelling, |content|)
    ensures TakeElement([tag] + spelling + content + rest) == Some(Element([tag] + spelling + content, content, rest))
  {
    var data := [tag] + spelling + content + rest;
    SpelledLengthIsRead([tag], spelling, content, rest);
    var header := 1 + |spelling|;
    assert data[..header + |content|] == [tag] + spelling + content;
    assert data[header..header + |content|] == content;
    assert data[header + |content|..] == rest;
  }

  lemma {:induction false} CutElementStoodInFront(data: Bytes)
    requires TakeElement(data).Some?
    ensures var e := TakeElement(data).value;
            data == e.whole + e.rest && e.whole != [] && Encodes(e.whole, e.whole[0], e.content)
  {
    var e, len := TakeElement(data).value, ReadLength(data, 1).value;
    var spelling := data[1..1 + len.lengthOctets];
    assert e.whole == [data[0]] + spelling + e.content;
  }

  /** An element is cut off exactly when one stands at the front, and then nothing is lost or invented. */
  lemma {:induction false} ElementIsCut(data: Bytes, e: Element)
    ensures TakeElement(data) == Some(e) <==>
            data == e.whole + e.rest && e.whole != [] && Encodes(e.whole, e.whole[0], e.content)
  {
    if data == e.whole + e.rest && e.whole != [] && Encodes(e.whole, e.whole[0], e.content) {
      var tag := e.whole[0];
      var spelling :| SpellsLength(spelling, |e.content|) && e.whole == [tag] + spelling + e.content;
      FrontElementIsCut(tag, spelling, e.content, e.rest);
    }
    if TakeElement(data).Some? {
      CutElementStoodInFront(data);
    }
  }

  // --- certificate fields ---------------------------------------------------------

  datatype Field = SerialNumber | Issuer | Subject | OtherField

  function Take(data: Bytes, tag: byte): Option<Element> {
    var e := TakeElement(data);
    if e.Some? && e.value.whole[0] == tag then e else None
  }

  /** The elements of a TBSCertificate up to the subject, each as encoded: the version when there is one, then
      serialNumber, signature, issuer, validity, subject. */
  datatype TbsFields = TbsFields(version: Bytes, fields: seq<Bytes>, more: Bytes)

  const FIELD_TAGS: seq<byte> := [0x02, 0x30, 0x30, 0x30, 0x30]

  function FieldOf(f: TbsFields, which: Field): Option<Bytes>
    requires |f.fields| == |FIELD_TAGS|
  {
    match which
    case SerialNumber => Some(f.fields[0])
    case Issuer => Some(f.fields[2])
    case Subject => Some(f.fields[4])
    case OtherField => None
  }

  /** Elements of the given tags, taken off the front one after another. */
  function CutAll(data: Bytes, tags: seq<byte>): (r: Option<(seq<Bytes>, Bytes)>)
    ensures r.Some? ==> |r.value.0| == |tags|
  {
    if tags == [] then Some(([], data))
    else
      var e := Take(data, tags[0]);
      if e.None? then None
      else
        var more := CutAll(e.value.rest, tags[1..]);
        if more.None? then None else Some(([e.value.whole] + more.value.0, more.value.1))
  }

  /** An optional version, then elements of the given tags. */
  function CutTbs(tbs: Bytes, tags: seq<byte>): (r: Option<TbsFields>)
    ensures r.Some? ==> |r.value.fields| == |tags|
  {
    var version := if tbs != [] && tbs[0] == 0xA0 then TakeElement(tbs) else Some(Element([], [], tbs));
    if version.None? then None else
    var cut := CutAll(version.value.rest, tags);
    if cut.None? then None else Some(TbsFields(version.value.whole, cut.value.0, cut.value.1))
  }

  /** certificateField. */
  function CertificateField(der: Bytes, which: Field): Option<Bytes> {
    var cert := Take(der, 0x30);
    if cert.None? then None else
    var tbs := Take(cert.value.content, 0x30);
    if tbs.None? then None else
    var cut := CutTbs(tbs.value.content, FIELD_TAGS);
    if cut.None? then None else FieldOf(cut.value, which)
  }

  ghost predicate Tagged(whole: Bytes, tag: byte) { exists content :: Encodes(whole, tag, content) }

  ghost predicate AllTagged(wholes: seq<Bytes>, tags: seq<byte>) {
    |wholes| == |tags| && forall i :: 0 <= i < |tags| ==> Tagged(wholes[i], tags[i])
  }

  function Laid(wholes: seq<Bytes>, rest: Bytes): Bytes {
    if wholes == [] then rest else wholes[0] + Laid(wholes[1..], rest)
  }

  /** The order section 4.1 of RFC 5280 fixes, with an optional version. */
  ghost predicate IsTbs(tbs: Bytes, tags: seq<byte>, f: TbsFields) {
    && (f.version == [] || Tagged(f.version, 0xA0))
    && AllTagged(f.fields, tags)
    && tbs == f.version + Laid(f.fields, f.more)
  }

  /** A certificate: an outer SEQUENCE whose first element is the TBSCertificate SEQUENCE. */
  ghost predicate IsCertificate(der: Bytes, f: TbsFields) {
    exists outer, outerContent, inner, tbs ::
      outer <= der && Encodes(outer, 0x30, outerContent) && inner <= outerContent && Encodes(inner, 0x30, tbs)
      && IsTbs(tbs, FIELD_TAGS, f)
  }

  lemma {:induction false} TakeIs(data: Bytes, tag: byte, whole: Bytes, content: Bytes)
    requires whole <= data && Encodes(whole, tag, content)
    ensures Take(data, tag) == Some(Element(whole, content, data[|whole|..]))
  {
    assert data == whole + data[|whole|..];
    assert whole[0] == tag;
    ElementIsCut(data, Element(whole, content, data[|whole|..]));
  }

  lemma {:induction false} TakeGives(data: Bytes, tag: byte)
    requires Take(data, tag).Some?
    ensures var e := Take(data, tag).value;
            Encodes(e.whole, tag, e.content) && data == e.whole + e.rest && e.whole <= data
  {
    ElementIsCut(data, Take(data, tag).value);
  }

  lemma {:induction false} TakeTagged(whole: Bytes, tag: byte, rest: Bytes)
    requires Tagged(whole, tag)
    ensures Take(whole + rest, tag).Some? && Take(whole + rest, tag).value.whole == whole
    ensures Take(whole + rest, tag).value.rest == rest
    ensures whole != [] && whole[0] == tag
  {
    var content :| Encodes(whole, tag, content);
    TakeIs(whole + rest, tag, whole, content);
  }

  lemma {:induction false} LaidIsCut(wholes: seq<Bytes>, tags: seq<byte>, rest: Bytes)
    requires AllTagged(wholes, tags)
    ensures CutAll(Laid(wholes, rest), tags) == Some((wholes, rest))
  {
    if tags != [] {
      TakeTagged(wholes[0], tags[0], Laid(wholes[1..], rest));
      LaidIsCut(wholes[1..], tags[1..], rest);
      assert wholes == [wholes[0]] + wholes[1..];
    }
  }

  lemma {:induction false} LaidBeginsWithItsTag(wholes: seq<Bytes>, tags: seq<byte>, rest: Bytes)
    requires AllTagged(wholes, tags) && tags != []
    ensures Laid(wholes, rest) != [] && Laid(wholes, rest)[0] == tags[0]
  {
    TakeTagged(wholes[0], tags[0], Laid(wholes[1..], rest));
  }

  lemma {:induction false} CutWasLaid(data: Bytes, tags: seq<byte>)
    requires CutAll(data, tags).Some?
    ensures var (wholes, rest) := CutAll(data, tags).value;
            AllTagged(wholes, tags) && data == Laid(wholes, rest)
  {
    if tags != [] {
      TakeGives(data, tags[0]);
      var e := Take(data, tags[0]).value;
      CutWasLaid(e.rest, tags[1..]);
      var (wholes, rest) := CutAll(data, tags).value;
      assert Tagged(wholes[0], tags[0]);
      assert wholes[1..] == CutAll(e.rest, tags[1..]).value.0;
    }
  }

  lemma {:induction false} TbsIsCut(tbs: Bytes, tags: seq<byte>, f: TbsFields)
    requires IsTbs(tbs, tags, f) && tags != [] && tags[0] != 0xA0
    ensures CutTbs(tbs, tags) == Some(f)
  {
    LaidIsCut(f.fields, tags, f.more);
    if f.version == [] {
      LaidBeginsWithItsTag(f.fields, tags, f.more);
      assert tbs == Laid(f.fields, f.more);
    } else {
      TakeTagged(f.version, 0xA0, Laid(f.fields, f.more));
    }
  }

  lemma {:induction false} CutTbsIs(tbs: Bytes, tags: seq<byte>)
    requires CutTbs(tbs, tags).Some?
    ensures IsTbs(tbs, tags, CutTbs(tbs, tags).value)
  {
    if tbs != [] && tbs[0] == 0xA0 {
      CutElementStoodInFront(tbs);
      assert Tagged(TakeElement(tbs).value.whole, 0xA0);
      CutWasLaid(TakeElement(tbs).value.rest, tags);
    } else {
      CutWasLaid(tbs, tags);
      assert tbs == [] + tbs;
    }
  }

  lemma {:induction false} CertificateIsCut(der: Bytes, f: TbsFields, which: Field)
    requires IsCertificate(der, f)
    ensures CertificateField(der, which) == FieldOf(f, which)
  {
    var outer, outerContent, inner, tbs :|
      outer <= der && Encodes(outer, 0x30, outerContent) && inner <= outerContent && Encodes(inner, 0x30, tbs)
      && IsTbs(tbs, FIELD_TAGS, f);
    TakeIs(der, 0x30, outer, outerContent);
    TakeIs(outerContent, 0x30, inner, tbs);
    TbsIsCut(tbs, FIELD_TAGS, f);
  }

  lemma {:induction false} CutWasCertificate(der: Bytes, which: Field) returns (f: TbsFields)
    requires CertificateField(der, which).Some?
    ensures IsCertificate(der, f) && CertificateField(der, which) == FieldOf(f, which)
  {
    TakeGives(der, 0x30);
    var cert := Take(der, 0x30).value;
    TakeGives(cert.content, 0x30);
    var tbs := Take(cert.content, 0x30).value;
    f := CutTbs(tbs.content, FIELD_TAGS).value;
    CutTbsIs(tbs.content, FIELD_TAGS);
  }

  /** Cutting a field off a certificate answers with exactly what the certificate encodes there, and answers at all
      exactly for byte strings laid out as section 4.1 of RFC 5280 says. */
  lemma {:induction false} CertificateFieldIsExact(der: Bytes, which: Field, x: Bytes)
    ensures CertificateField(der, which) == Some(x) <==>
      exists f :: IsCertificate(der, f) && FieldOf(f, which) == Some(x)
  {
    if CertificateField(der, which) == Some(x) {
      var f := CutWasCertificate(der, which);
    }
    if f :| IsCertificate(der, f) && FieldOf(f, which) == Some(x) {
      CertificateIsCut(der, f, which);
    }
  }

  // --- EC points ---------------------------------------------------------------------

  /** appendDerLength: short form, or one or two octets; octets are cut to eight bits. */
  function PointLength(n: nat): Bytes {
    if n < 0x80 then [n] else if n <= 0xFF then [0x81, n] else [0x82, (n / 256) % 256, n % 256]
  }

  function UncompressedPoint(x: Bytes, y: Bytes): Bytes { [0x04] + x + y }

  /** ecPointOctetString. */
  function PointOctetString(x: Bytes, y: Bytes): Bytes {
    if x == [] || |x| != |y| then []
    else [0x04] + PointLength(1 + |x| + |y|) + UncompressedPoint(x, y)
  }

  /** peerPointFromPublicData. */
  function PeerPoint(publicData: Bytes, keyBits: nat): Option<Bytes> {
    var n := (keyBits + 7) / 8;
    if n == 0 then None
    else
      var pointLen := 1 + 2 * n;
      var header := [0x04] + PointLength(pointLen);
      var point := if |publicData| == pointLen then publicData
                   else if header <= publicData && |publicData| == |header| + pointLen then publicData[|header|..]
                   else [];
      if point == [] || point[0] != 0x04 then None else Some(point)
  }

  lemma {:induction false} PointLengthSpells(n: nat)
    ensures SpellsLength(PointLength(n), n) <==> n < 0x1_0000
  {
    var spelling := PointLength(n);
    if n > 0xFF {
      var high, low := (n / 256) % 256, n % 256;
      assert spelling[1..] == [high, low];
      assert spelling[1..][..1] == [high] && [high][..0] == [];
      assert BigEndian(spelling[1..][..1]) == high;
      assert BigEndian(spelling[1..]) == 256 * high + low;
      assert high == n / 256 <==> n < 0x1_0000;
    } else if n >= 0x80 {
      var low: Bytes := [n];
      assert spelling[1..] == low && low[..0] == [];
      assert BigEndian(low) == n;
    }
  }

  lemma {:induction false} SameHeader(tag: byte, a: Bytes, b: Bytes, content: Bytes)
    requires [tag] + a + content == [tag] + b + content
    ensures a == b
  {
    assert |a| == |b|;
    assert a == ([tag] + a + content)[1..1 + |a|] && b == ([tag] + b + content)[1..1 + |b|];
  }

  lemma {:induction false} DerHasThatLength(n: nat, whole: Bytes, content: Bytes)
    requires whole == [0x04] + PointLength(n) + content && |content| == n
    ensures Encodes(whole, 0x04, content) <==> SpellsLength(PointLength(n), n)
  {
    if Encodes(whole, 0x04, content) {
      var spelling :| SpellsLength(spelling, n) && whole == [0x04] + spelling + content;
      SameHeader(0x04, spelling, PointLength(n), content);
    }
  }

  /** The octet string is DER exactly for two coordinates of one length that make a point of fewer than 65536 octets. */
  lemma {:induction false} PointOctetStringIsDer(x: Bytes, y: Bytes)
    ensures Encodes(PointOctetString(x, y), 0x04, UncompressedPoint(x, y))
            <==> 0 < |x| == |y| && 1 + |x| + |y| < 0x1_0000
  {
    if 0 < |x| == |y| {
      PointLengthSpells(1 + |x| + |y|);
      DerHasThatLength(1 + |x| + |y|, PointOctetString(x, y), UncompressedPoint(x, y));
    }
  }

  lemma {:induction false} AcceptedPointIsSpelled(publicData: Bytes, keyBits: nat) returns (x: Bytes, y: Bytes)
    requires PeerPoint(publicData, keyBits).Some?
    ensures 0 < |x| == |y| == (keyBits + 7) / 8 && PeerPoint(publicData, keyBits) == Some(UncompressedPoint(x, y))
    ensures publicData == UncompressedPoint(x, y) || publicData == PointOctetString(x, y)
  {
    var n, point := (keyBits + 7) / 8, PeerPoint(publicData, keyBits).value;
    x, y := point[1..1 + n], point[1 + n..];
    assert point == UncompressedPoint(x, y);
    if publicData != point {
      var header := [0x04] + PointLength(1 + 2 * n);
      assert publicData == header + point;
    }
  }

  lemma {:induction false} SpelledPointIsAccepted(x: Bytes, y: Bytes, keyBits: nat)
    requires 0 < |x| == |y| == (keyBits + 7) / 8
    ensures PeerPoint(UncompressedPoint(x, y), keyBits) == Some(UncompressedPoint(x, y))
    ensures PeerPoint(PointOctetString(x, y), keyBits) == Some(UncompressedPoint(x, y))
  {
    var point, header := UncompressedPoint(x, y), [0x04] + PointLength(1 + |x| + |y|);
    assert PointOctetString(x, y) == header + point;
    assert PointOctetString(x, y)[|header|..] == point;
  }

  /** A point is recovered from its raw form and from its octet string, and from nothing else. */
  lemma {:induction false} PeerPointIsExact(publicData: Bytes, keyBits: nat, point: Bytes)
    ensures PeerPoint(publicData, keyBits) == Some(point) <==>
            exists x, y :: 0 < |x| == |y| == (keyBits + 7) / 8 && point == UncompressedPoint(x, y)
                           && (publicData == point || publicData == PointOctetString(x, y))
  {
    if PeerPoint(publicData, keyBits) == Some(point) {
      var x, y := AcceptedPointIsSpelled(publicData, keyBits);
    }
    if x, y :| 0 < |x| == |y| == (keyBits + 7) / 8 && point == UncompressedPoint(x, y)
               && (publicData == point || publicData == PointOctetString(x, y)) {
      SpelledPointIsAccepted(x, y, keyBits);
    }
  }
}
