/** Finding the signed objects of a file: one published list, or an RFC 2849 directory export (masterListsIn). */
module Ldif {
  import opened Core
  import opened Sequences
  import Base64
  import Der

  const LF: byte := 10
  const CR: byte := 13
  const TAB: byte := 9
  const SPACE: byte := 32
  const HASH: byte := 35
  const COLON: byte := 58

  const SIGNED_DATA_OID: Bytes := [0x06, 0x09, 0x2a, 0x86, 0x48, 0x86, 0xf7, 0x0d, 0x01, 0x07, 0x02]

  /** One complete CMS ContentInfo carrying id-signedData: the declared length covers it exactly, or it is the BER
      indefinite form and closed. */
  predicate IsSignedObject(value: Bytes) {
    && |value| >= 2 + |SIGNED_DATA_OID|
    && value[0] == 0x30
    && var header :=
         if value[1] == 0x80 then
           (if value[|value| - 1] == 0 && value[|value| - 2] == 0 then Some(2) else None)
         else
           var len := Der.ReadLength(value, 1);
           if len.Some? && 1 + len.value.lengthOctets + len.value.length == |value|
           then Some(1 + len.value.lengthOctets) else None;
       header.Some? && |value| >= header.value + |SIGNED_DATA_OID|
       && value[header.value..header.value + |SIGNED_DATA_OID|] == SIGNED_DATA_OID
  }

  // --- logical lines ---------------------------------------------------------------

  function WithoutCr(line: Bytes): Bytes {
    if line != [] && line[|line| - 1] == CR then line[..|line| - 1] else line
  }

  function PhysicalLine(): Bytes -> seq<Bytes> { (line: Bytes) => [WithoutCr(line)] }

  /** The lines as they stand in the file, terminators removed. */
  function PhysicalLines(bytes: Bytes): seq<Bytes> { Collect(PhysicalLine(), Fields(bytes, LF)) }

  predicate Continues(line: Bytes) { line != [] && line[0] == SPACE }

  /** Folding undone: a line that starts with one space continues the one before it. */
  function LogicalLines(lines: seq<Bytes>): (r: seq<Bytes>)
    ensures r == [] <==> lines == []
  {
    if lines == [] then []
    else
      var before, last := LogicalLines(lines[..|lines| - 1]), lines[|lines| - 1];
      if !Continues(last) then before + [last]
      else if before == [] then [last[1..]]
      else before[..|before| - 1] + [before[|before| - 1] + last[1..]]
  }

  // --- one logical line --------------------------------------------------------------

  predicate IsTypeStart(c: byte) { 97 <= c <= 122 || 65 <= c <= 90 || 48 <= c <= 57 }

  predicate IsTypeChar(c: byte) { IsTypeStart(c) || c == 45 || c == 46 || c == 59 }

  predicate IsType(t: Bytes) { t != [] && IsTypeStart(t[0]) && forall c <- t :: IsTypeChar(c) }

  predicate IsIgnored(line: Bytes) { line == [] || line[0] == HASH }

  /** A separator, a comment, or an attribute description followed by a colon. */
  predicate IsLdifLine(line: Bytes) {
    IsIgnored(line) || var colon := Find(line, COLON); colon.Some? && IsType(line[..colon.value])
  }

  predicate IsDnType(t: Bytes) { |t| == 2 && t[0] in {68, 100} && t[1] in {78, 110} }

  predicate IsDnLine(line: Bytes) {
    !IsIgnored(line) && var colon := Find(line, COLON); colon.Some? && IsDnType(line[..colon.value])
  }

  function TrimFront(s: Bytes): Bytes {
    if s != [] && (s[0] == SPACE || s[0] == TAB) then TrimFront(s[1..]) else s
  }

  function TrimBack(s: Bytes): Bytes {
    if s != [] && s[|s| - 1] in {SPACE, TAB, CR} then TrimBack(s[..|s| - 1]) else s
  }

  /** The signed object a line carries as a base64 value, if it does. */
  function ObjectIn(line: Bytes): seq<Bytes> {
    var colon := Find(line, COLON);
    if IsIgnored(line) || colon.None? || colon.value + 1 >= |line| || line[colon.value + 1] != COLON then []
    else
      var decoded := Base64.Decode(TrimBack(TrimFront(line[colon.value + 2..])));
      if decoded.Some? && IsSignedObject(decoded.value) then [decoded.value] else []
  }

  function ObjectOf(): Bytes -> seq<Bytes> { (line: Bytes) => ObjectIn(line) }

  /** The signed objects of a directory export in file order; nothing at all for other text. */
  function SignedObjects(bytes: Bytes): seq<Bytes> {
    var lines := LogicalLines(PhysicalLines(bytes));
    if (forall l <- lines :: IsLdifLine(l)) && (exists l <- lines :: IsDnLine(l)) then Collect(ObjectOf(), lines)
    else []
  }

  /** masterListsIn. */
  function MasterLists(fileBytes: Bytes): seq<Bytes> {
    if IsSignedObject(fileBytes) then [fileBytes]
    else if 0 in fileBytes then []
    else SignedObjects(fileBytes)
  }

  // --- the reader's loop ---------------------------------------------------------------

  /** Everything decided about the logical lines that are complete. */
  ghost predicate Decided(lines: seq<Bytes>, sawDn: bool, found: seq<Bytes>) {
    && (forall l <- lines :: IsLdifLine(l))
    && (sawDn <==> exists l <- lines :: IsDnLine(l))
    && found == Collect(ObjectOf(), lines)
  }

  lemma {:induction false} DecideOne(lines: seq<Bytes>, sawDn: bool, found: seq<Bytes>, line: Bytes)
    requires Decided(lines, sawDn, found) && IsLdifLine(line)
    ensures Decided(lines + [line], sawDn || IsDnLine(line), found + ObjectIn(line))
  {
    CollectJoin(ObjectOf(), lines, [line]);
    CollectOne(ObjectOf(), line);
    assert forall l :: l in lines + [line] <==> l in lines || l == line;
    assert line in lines + [line];
  }

  /** One physical line after another: done are the lines read, of which the last logical one may still grow. */
  lemma {:induction false} ReadOne(done: seq<Bytes>, line: Bytes)
    ensures var before, after := LogicalLines(done), LogicalLines(done + [line]);
            && after != []
            && (if Continues(line) && before != []
                then after == before[..|before| - 1] + [before[|before| - 1] + line[1..]]
                else after == before + [if Continues(line) then line[1..] else line])
  {
    assert (done + [line])[..|done|] == done;
  }

  lemma {:induction false} NextField(bytes: Bytes, at: nat, end: nat)
    requires at <= end <= |bytes| && LF !in bytes[at..end]
    requires end < |bytes| ==> bytes[end] == LF
    ensures Fields(bytes[at..], LF) ==
            [bytes[at..end]] + if end < |bytes| then Fields(bytes[end + 1..], LF) else []
  {
    var s, line := bytes[at..], bytes[at..end];
    if end < |bytes| {
      assert s == line + [LF] + bytes[end + 1..];
      FieldsOfJoined(line, LF, bytes[end + 1..]);
    } else {
      assert s == line;
    }
  }

  lemma {:induction false} PhysicalStep(lines: seq<Bytes>, line: Bytes)
    ensures Collect(PhysicalLine(), lines + [line]) == Collect(PhysicalLine(), lines) + [WithoutCr(line)]
  {
    assert (lines + [line])[..|lines|] == lines;
  }

  method LineEnd(bytes: Bytes, at: nat) returns (end: nat)
    requires at <= |bytes|
    ensures at <= end <= |bytes| && LF !in bytes[at..end]
    ensures end < |bytes| ==> bytes[end] == LF
  {
    end := at;
    while end < |bytes| && bytes[end] != LF
      invariant at <= end <= |bytes|
      invariant LF !in bytes[at..end]
    {
      end := end + 1;
    }
  }

  /** What has been gathered after some physical lines: the complete logical lines are decided, the last is open. */
  ghost predicate Gathered(done: seq<Bytes>, logical: Bytes, haveLogical: bool, sawDn: bool, found: seq<Bytes>) {
    var lines := LogicalLines(done);
    if lines == [] then !haveLogical && logical == [] && !sawDn && found == []
    else haveLogical && logical == lines[|lines| - 1] && Decided(lines[..|lines| - 1], sawDn, found)
  }

  lemma {:induction false} GatheredNext(done: seq<Bytes>, logical: Bytes, haveLogical: bool, sawDn: bool,
                                        found: seq<Bytes>, line: Bytes)
    requires Gathered(done, logical, haveLogical, sawDn, found)
    ensures Continues(line) ==> Gathered(done + [line], logical + line[1..], true, sawDn, found)
    ensures !Continues(line) && !haveLogical ==> Gathered(done + [line], line, true, sawDn, found)
    ensures !Continues(line) && haveLogical && IsLdifLine(logical) ==>
              Gathered(done + [line], line, true, sawDn || IsDnLine(logical), found + ObjectIn(logical))
  {
    ReadOne(done, line);
    var before, after := LogicalLines(done), LogicalLines(done + [line]);
    if before == [] {
      assert after[..|after| - 1] == [];
      assert Decided([], sawDn, found);
      assert [] + line[if Continues(line) then 1 else 0..] == line[if Continues(line) then 1 else 0..];
    } else if Continues(line) {
      assert after[..|after| - 1] == before[..|before| - 1];
    } else if IsLdifLine(logical) {
      DecideOne(before[..|before| - 1], sawDn, found, logical);
      assert after[..|after| - 1] == before == before[..|before| - 1] + [logical];
    }
  }

  /** Lines joined on where no line is continued unfold separately. */
  lemma {:induction false} LogicalJoin(a: seq<Bytes>, b: seq<Bytes>)
    requires b != [] ==> !Continues(b[0])
    ensures LogicalLines(a + b) == LogicalLines(a) + LogicalLines(b)
    decreases |b|
  {
    if b == [] {
      assert a + b == a;
    } else {
      var n := |b| - 1;
      assert a + b == (a + b[..n]) + [b[n]];
      assert b == b[..n] + [b[n]];
      LogicalJoin(a, b[..n]);
      OneLineMore(a + b[..n], b[..n], LogicalLines(a), LogicalLines(b[..n]), b[n]);
    }
  }

  lemma {:induction false} OneLineMore(
    whole: seq<Bytes>, part: seq<Bytes>, front: seq<Bytes>, back: seq<Bytes>, line: Bytes)
    requires LogicalLines(whole) == front + back && LogicalLines(part) == back && (Continues(line) ==> back != [])
    ensures LogicalLines(whole + [line]) == front + LogicalLines(part + [line])
  {
    ReadOne(whole, line);
    ReadOne(part, line);
    if Continues(line) {
      assert (front + back)[..|front + back| - 1] == front + back[..|back| - 1];
    }
  }

  lemma {:induction false} RestIsPhysical(bytes: Bytes, raw: seq<Bytes>, at: nat, end: nat)
    requires at <= end <= |bytes|
    requires Fields(bytes, LF) == raw + Fields(bytes[at..], LF)
    requires Fields(bytes[at..], LF)[0] == bytes[at..end]
    ensures var done := Collect(PhysicalLine(), raw);
            |done| < |PhysicalLines(bytes)| && PhysicalLines(bytes) == done + PhysicalLines(bytes)[|done|..]
            && PhysicalLines(bytes)[|done|] == WithoutCr(bytes[at..end])
  {
    var rest := Fields(bytes[at..], LF);
    CollectJoin(PhysicalLine(), raw, rest);
    assert rest == [rest[0]] + rest[1..];
    CollectJoin(PhysicalLine(), [rest[0]], rest[1..]);
    PhysicalStep([], rest[0]);
    assert [] + [rest[0]] == [rest[0]];
  }
  /** A complete line that is not LDIF settles the whole file. */
  lemma {:induction false} BadLineSettlesIt(bytes: Bytes, raw: seq<Bytes>, at: nat, end: nat, line: Bytes)
    requires at <= end <= |bytes|
    requires Fields(bytes, LF) == raw + Fields(bytes[at..], LF)
    requires Fields(bytes[at..], LF)[0] == bytes[at..end] && !Continues(WithoutCr(bytes[at..end]))
    requires var lines := LogicalLines(Collect(PhysicalLine(), raw));
             lines != [] && lines[|lines| - 1] == line && !IsLdifLine(line)
    ensures SignedObjects(bytes) == []
  {
    RestIsPhysical(bytes, raw, at, end);
    var done := Collect(PhysicalLine(), raw);
    LogicalJoin(done, PhysicalLines(bytes)[|done|..]);
    assert line in LogicalLines(PhysicalLines(bytes));
  }

  /** At the end of the file the open line is decided like any other. */
  lemma {:induction false} LastLineDecides(bytes: Bytes, logical: Bytes, sawDn: bool, found: seq<Bytes>)
    requires Gathered(PhysicalLines(bytes), logical, true, sawDn, found)
    ensures SignedObjects(bytes) ==
            if IsLdifLine(logical) && (sawDn || IsDnLine(logical)) then found + ObjectIn(logical) else []
  {
    var lines := LogicalLines(PhysicalLines(bytes));
    var front := lines[..|lines| - 1];
    assert lines == front + [logical];
    if IsLdifLine(logical) {
      DecideOne(front, sawDn, found, logical);
    } else {
      assert logical in lines;
    }
  }

  /** One physical line: it continues the open logical line, or completes it and opens the next. */
  method TakeLine(
    physical: Bytes, logical: Bytes, haveLogical: bool, sawDn: bool, found: seq<Bytes>, ghost done: seq<Bytes>)
    returns (ok: bool, logical': Bytes, sawDn': bool, found': seq<Bytes>)
    requires Gathered(done, logical, haveLogical, sawDn, found)
    ensures ok ==> Gathered(done + [physical], logical', true, sawDn', found')
    ensures !ok ==> !Continues(physical) && haveLogical && !IsLdifLine(logical)
  {
    GatheredNext(done, logical, haveLogical, sawDn, found, physical);
    if Continues(physical) {
      return true, logical + physical[1..], sawDn, found;
    }
    if !haveLogical {
      return true, physical, sawDn, found;
    }
    if !IsLdifLine(logical) {
      return false, logical, sawDn, found;
    }
    return true, physical, sawDn || IsDnLine(logical), found + ObjectIn(logical);
  }

  lemma {:induction false} FieldsAdvance(bytes: Bytes, raw: seq<Bytes>, at: nat, end: nat)
    requires at <= end <= |bytes| && LF !in bytes[at..end]
    requires end < |bytes| ==> bytes[end] == LF
    requires Fields(bytes, LF) == raw + Fields(bytes[at..], LF)
    ensures Fields(bytes[at..], LF)[0] == bytes[at..end]
    ensures end < |bytes| ==> Fields(bytes, LF) == (raw + [bytes[at..end]]) + Fields(bytes[end + 1..], LF)
    ensures end == |bytes| ==> Fields(bytes, LF) == raw + [bytes[at..end]]
  {
    NextField(bytes, at, end);
  }

  /** A physical line: the bytes up to its end, one carriage return dropped. */
  method PhysicalAt(bytes: Bytes, at: nat, end: nat) returns (physical: Bytes)
    requires at <= end <= |bytes|
    ensures physical == WithoutCr(bytes[at..end])
  {
    var stop := if end > at && bytes[end - 1] == CR then end - 1 else end;
    physical := bytes[at..stop];
    assert stop < end ==> bytes[at..end][..stop - at] == bytes[at..stop];
  }

  /** signedObjectsInLdif: folding undone and every logical line considered in one pass. */
  method SignedObjectsInLdif(bytes: Bytes) returns (r: seq<Bytes>)
    ensures r == SignedObjects(bytes)
  {
    var sawDn, found, logical, haveLogical, at := false, [], [], false, 0;
    ghost var raw: seq<Bytes> := [];
    assert bytes[0..] == bytes && [] + Fields(bytes, LF) == Fields(bytes, LF);
    while true
      invariant at <= |bytes|
      invariant Fields(bytes, LF) == raw + Fields(bytes[at..], LF)
      invariant Gathered(Collect(PhysicalLine(), raw), logical, haveLogical, sawDn, found)
      decreases |bytes| - at
    {
      var end := LineEnd(bytes, at);
      FieldsAdvance(bytes, raw, at, end);
      PhysicalStep(raw, bytes[at..end]);
      var physical := PhysicalAt(bytes, at, end);
      var ok, logical', sawDn', found' :=
        TakeLine(physical, logical, haveLogical, sawDn, found, Collect(PhysicalLine(), raw));
      if !ok {
        BadLineSettlesIt(bytes, raw, at, end, logical);
        return [];
      }
      logical, haveLogical, sawDn, found := logical', true, sawDn', found';
      raw := raw + [bytes[at..end]];
      if end == |bytes| {
        break;
      }
      at := end + 1;
    }
    r := Concluded(bytes, logical, sawDn, found);
  }

  method Concluded(bytes: Bytes, logical: Bytes, sawDn: bool, found: seq<Bytes>) returns (r: seq<Bytes>)
    requires Gathered(PhysicalLines(bytes), logical, true, sawDn, found)
    ensures r == SignedObjects(bytes)
  {
    LastLineDecides(bytes, logical, sawDn, found);
    if !IsLdifLine(logical) || !(sawDn || IsDnLine(logical)) {
      return [];
    }
    return found + ObjectIn(logical);
  }
}
