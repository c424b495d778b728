/** Every RFC 2849 export that starts with a dn record gives up exactly the signed objects it embeds, however its lines
    are folded and terminated. */
module LdifExport {
  import opened Core
  import opened Sequences
  import opened Ldif
  import Base64

  /** One logical line of an export. */
  datatype Entry =
    | Separator
    | Comment(text: Bytes)
    | Plain(attr: Bytes, value: Bytes)
    | Encoded(attr: Bytes, fill: nat, signed: Bytes)

  predicate IsText(s: Bytes) { forall c <- s :: c != 0 && c != LF && c != CR }

  predicate WellFormed(e: Entry) {
    match e
    case Separator => true
    case Comment(text) => IsText(text)
    case Plain(attr, value) => IsType(attr) && IsText(value) && (value == [] || value[0] != COLON)
    case Encoded(attr, _, _) => IsType(attr)
  }

  function Fill(n: nat): Bytes { seq(n, _ => SPACE) }

  /** `attr: value` (a `:<` URL included), or `attr:: base64` with any number of spaces before it. */
  function LineOf(e: Entry): Bytes {
    match e
    case Separator => []
    case Comment(text) => [HASH] + text
    case Plain(attr, value) => attr + [COLON] + value
    case Encoded(attr, fill, signed) => attr + [COLON] + ([COLON] + Fill(fill) + Base64.Encode(signed))
  }

  predicate NamesDn(e: Entry) { (e.Plain? || e.Encoded?) && IsDnType(e.attr) }

  function EmbeddedObject(e: Entry): seq<Bytes> {
    if e.Encoded? && IsSignedObject(e.signed) then [e.signed] else []
  }

  /** A logical line cut into physical ones, each ended by LF or by CR LF. */
  datatype Piece = Piece(text: Bytes, crlf: bool)

  datatype Folded = Folded(entry: Entry, pieces: seq<Piece>)

  function PieceText(): Piece -> seq<byte> { (p: Piece) => p.text }

  /** The physical lines joined. */
  function Whole(pieces: seq<Piece>): Bytes { Collect(PieceText(), pieces) }

  predicate IsFolding(f: Folded) { WellFormed(f.entry) && f.pieces != [] && Whole(f.pieces) == LineOf(f.entry) }

  /** A physical line as it stands in the file, and without its carriage return. */
  function RawLine(p: Piece, first: bool): Bytes { Line(p, first) + if p.crlf then [CR] else [] }

  function Line(p: Piece, first: bool): Bytes { (if first then [] else [SPACE]) + p.text }

  function RawLines(pieces: seq<Piece>): seq<Bytes> {
    seq(|pieces|, i requires 0 <= i < |pieces| => RawLine(pieces[i], i == 0))
  }

  function Lines(pieces: seq<Piece>): seq<Bytes> {
    seq(|pieces|, i requires 0 <= i < |pieces| => Line(pieces[i], i == 0))
  }

  function RawLinesOf(): Folded -> seq<Bytes> { (f: Folded) => RawLines(f.pieces) }

  function LinesOf(): Folded -> seq<Bytes> { (f: Folded) => Lines(f.pieces) }

  function Ended(lines: seq<Bytes>): Bytes {
    if lines == [] then [] else lines[0] + [LF] + Ended(lines[1..])
  }

  /** The file. */
  function Rendered(doc: seq<Folded>): Bytes { Ended(Collect(RawLinesOf(), doc)) }

  function ObjectsOf(): Folded -> seq<Bytes> { (f: Folded) => EmbeddedObject(f.entry) }

  function LogicalOf(): Folded -> seq<Bytes> { (f: Folded) => [LineOf(f.entry)] }

  // --- one line ---------------------------------------------------------------------

  lemma {:induction false} TypeHasNoColon(t: Bytes)
    requires IsType(t)
    ensures COLON !in t && t[0] != SPACE && t[0] != HASH && IsText(t)
  {
    assert !IsTypeChar(COLON) && !IsTypeChar(0) && !IsTypeChar(LF) && !IsTypeChar(CR);
  }

  lemma {:induction false} TrimmedFill(n: nat, s: Bytes)
    requires forall c <- s :: 43 <= c
    ensures TrimBack(TrimFront(Fill(n) + s)) == s
  {
    if n == 0 {
      assert Fill(n) + s == s;
      assert s != [] ==> s[0] in s && s[|s| - 1] in s;
      assert TrimFront(s) == s;
    } else {
      assert (Fill(n) + s)[1..] == Fill(n - 1) + s;
      TrimmedFill(n - 1, s);
    }
  }

  lemma {:induction false} AttributeLine(attr: Bytes, after: Bytes)
    requires IsType(attr)
    ensures var line := attr + [COLON] + after;
            && Find(line, COLON) == Some(|attr|) && line[..|attr|] == attr
            && !IsIgnored(line) && IsLdifLine(line) && (IsDnLine(line) <==> IsDnType(attr)) && !Continues(line)
  {
    TypeHasNoColon(attr);
    FindAfter(attr, COLON, after);
    var line := attr + [COLON] + after;
    assert line[..|attr|] == attr && line[0] == attr[0];
  }

  lemma {:induction false} ValueIsDecoded(attr: Bytes, rest: Bytes, object': Option<Bytes>)
    requires IsType(attr) && Base64.Decode(TrimBack(TrimFront(rest))) == object'
    ensures ObjectIn(attr + [COLON] + ([COLON] + rest)) ==
            if object'.Some? && IsSignedObject(object'.value) then [object'.value] else []
  {
    var line := attr + [COLON] + ([COLON] + rest);
    AttributeLine(attr, [COLON] + rest);
    assert line[|attr| + 1] == COLON;
    assert line[|attr| + 2..] == rest;
  }

  lemma {:induction false} EncodedLine(attr: Bytes, fill: nat, signed: Bytes)
    requires IsType(attr)
    ensures var line := LineOf(Encoded(attr, fill, signed));
            ObjectIn(line) == EmbeddedObject(Encoded(attr, fill, signed))
  {
    var code := Base64.Encode(signed);
    Base64.EncodingAlphabet(signed);
    Base64.EncodingReadsBack(signed);
    TrimmedFill(fill, code);
    ValueIsDecoded(attr, Fill(fill) + code, if signed == [] then None else Some(signed));
    assert [COLON] + Fill(fill) + code == [COLON] + (Fill(fill) + code);
  }

  lemma {:induction false} EncodedLineIsText(attr: Bytes, fill: nat, signed: Bytes)
    requires IsType(attr)
    ensures IsText(LineOf(Encoded(attr, fill, signed)))
  {
    TypeHasNoColon(attr);
    Base64.EncodingAlphabet(signed);
  }

  lemma {:induction false} PlainLine(attr: Bytes, value: Bytes)
    requires WellFormed(Plain(attr, value))
    ensures ObjectIn(attr + [COLON] + value) == [] && IsText(attr + [COLON] + value)
  {
    AttributeLine(attr, value);
    TypeHasNoColon(attr);
    var line := attr + [COLON] + value;
    if value != [] { assert line[|attr| + 1] == value[0]; }
  }

  /** What the reader makes of a logical line is what the export meant by it. */
  lemma {:induction false} LineMeans(e: Entry)
    requires WellFormed(e)
    ensures var line := LineOf(e);
            && IsLdifLine(line) && !Continues(line) && IsText(line)
            && (IsDnLine(line) <==> NamesDn(e)) && ObjectIn(line) == EmbeddedObject(e)
  {
    match e {
      case Separator =>
      case Comment(text) =>
      case Plain(attr, value) =>
        AttributeLine(attr, value);
        PlainLine(attr, value);
      case Encoded(attr, fill, signed) =>
        AttributeLine(attr, [COLON] + Fill(fill) + Base64.Encode(signed));
        EncodedLine(attr, fill, signed);
        EncodedLineIsText(attr, fill, signed);
    }
  }

  // --- folding undone ------------------------------------------------------------------

  lemma {:induction false} PieceIsPart(pieces: seq<Piece>, i: nat)
    requires i < |pieces|
    ensures forall c <- pieces[i].text :: c in Whole(pieces)
  {
    CollectStep(PieceText(), pieces, i);
    CollectJoin(PieceText(), pieces[..i + 1], pieces[i + 1..]);
    assert pieces == pieces[..i + 1] + pieces[i + 1..];
  }

  lemma {:induction false} FirstPieceComesFirst(pieces: seq<Piece>)
    requires pieces != []
    ensures pieces[0].text <= Whole(pieces)
  {
    CollectJoin(PieceText(), [pieces[0]], pieces[1..]);
    CollectOne(PieceText(), pieces[0]);
    assert pieces == [pieces[0]] + pieces[1..];
  }

  lemma {:induction false} LinesUnfold(pieces: seq<Piece>, n: nat)
    requires 0 < n <= |pieces| && !Continues(Lines(pieces)[0])
    ensures LogicalLines(Lines(pieces)[..n]) == [Whole(pieces[..n])]
  {
    var lines := Lines(pieces);
    assert lines[..n] == lines[..n - 1] + [lines[n - 1]];
    ReadOne(lines[..n - 1], lines[n - 1]);
    CollectStep(PieceText(), pieces, n - 1);
    if n > 1 {
      LinesUnfold(pieces, n - 1);
      assert lines[n - 1][1..] == pieces[n - 1].text;
    }
  }

  lemma {:induction false} PiecesUnfold(pieces: seq<Piece>)
    requires pieces != [] && !Continues(Whole(pieces))
    ensures LogicalLines(Lines(pieces)) == [Whole(pieces)]
    ensures !Continues(Lines(pieces)[0])
  {
    FirstPieceComesFirst(pieces);
    assert Lines(pieces)[0] == pieces[0].text;
    LinesUnfold(pieces, |pieces|);
    assert Lines(pieces)[..|pieces|] == Lines(pieces) && pieces[..|pieces|] == pieces;
  }

  lemma {:induction false} FoldingUnfolds(f: Folded)
    requires IsFolding(f)
    ensures LogicalLines(Lines(f.pieces)) == [LineOf(f.entry)] && !Continues(Lines(f.pieces)[0])
  {
    LineMeans(f.entry);
    PiecesUnfold(f.pieces);
  }

  lemma {:induction false} DocUnfolds(doc: seq<Folded>)
    requires forall f <- doc :: IsFolding(f)
    ensures LogicalLines(Collect(LinesOf(), doc)) == Collect(LogicalOf(), doc)
  {
    if doc != [] {
      var n := |doc| - 1;
      DocUnfolds(doc[..n]);
      FoldingUnfolds(doc[n]);
      LogicalJoin(Collect(LinesOf(), doc[..n]), Lines(doc[n].pieces));
    }
  }

  // --- terminators removed -----------------------------------------------------------------

  lemma {:induction false} FieldsOfEnded(lines: seq<Bytes>)
    requires forall l <- lines :: LF !in l
    ensures Fields(Ended(lines), LF) == lines + [[]]
  {
    if lines != [] {
      FieldsOfEnded(lines[1..]);
      FirstField(lines[0], Ended(lines[1..]), lines[1..]);
      assert lines == [lines[0]] + lines[1..];
    }
  }

  lemma {:induction false} FirstField(line: Bytes, rest: Bytes, more: seq<Bytes>)
    requires LF !in line && Fields(rest, LF) == more + [[]]
    ensures Fields(line + [LF] + rest, LF) == [line] + more + [[]]
  {
    FieldsOfJoined(line, LF, rest);
  }

  lemma {:induction false} RawLineIsText(p: Piece, first: bool)
    requires IsText(p.text)
    ensures LF !in RawLine(p, first) && 0 !in RawLine(p, first) && WithoutCr(RawLine(p, first)) == Line(p, first)
  {
    var line, raw := Line(p, first), RawLine(p, first);
    assert forall c <- line :: c != CR && c != LF && c != 0;
    if p.crlf {
      assert raw[..|raw| - 1] == line;
    } else {
      assert raw == line;
      assert line != [] ==> line[|line| - 1] in line;
    }
  }

  lemma {:induction false} PiecesAreText(pieces: seq<Piece>, n: nat)
    requires IsText(Whole(pieces)) && n <= |pieces|
    ensures Collect(PhysicalLine(), RawLines(pieces)[..n]) == Lines(pieces)[..n]
    ensures AreText(RawLines(pieces)[..n])
  {
    if n > 0 {
      var raw, lines := RawLines(pieces), Lines(pieces);
      PiecesAreText(pieces, n - 1);
      PieceIsPart(pieces, n - 1);
      RawLineIsText(pieces[n - 1], n == 1);
      CollectStep(PhysicalLine(), raw, n - 1);
      assert lines[..n] == lines[..n - 1] + [lines[n - 1]];
      OneMoreText(raw, n - 1);
    }
  }

  ghost predicate AreText(lines: seq<Bytes>) { forall l <- lines :: LF !in l && 0 !in l }

  lemma {:induction false} OneMoreText(raw: seq<Bytes>, n: nat)
    requires n < |raw| && AreText(raw[..n]) && LF !in raw[n] && 0 !in raw[n]
    ensures AreText(raw[..n + 1])
  {
    assert raw[..n + 1] == raw[..n] + [raw[n]];
  }

  lemma {:induction false} FoldingIsText(f: Folded)
    requires IsFolding(f)
    ensures Collect(PhysicalLine(), RawLines(f.pieces)) == Lines(f.pieces)
    ensures forall l <- RawLines(f.pieces) :: LF !in l && 0 !in l
  {
    LineMeans(f.entry);
    PiecesAreText(f.pieces, |f.pieces|);
    assert RawLines(f.pieces)[..|f.pieces|] == RawLines(f.pieces) && Lines(f.pieces)[..|f.pieces|] == Lines(f.pieces);
  }

  lemma {:induction false} RawIsText(doc: seq<Folded>)
    requires forall f <- doc :: IsFolding(f)
    ensures forall l <- Collect(RawLinesOf(), doc) :: LF !in l && 0 !in l
    ensures Collect(PhysicalLine(), Collect(RawLinesOf(), doc)) == Collect(LinesOf(), doc)
  {
    if doc != [] {
      var n := |doc| - 1;
      RawIsText(doc[..n]);
      CollectJoin(PhysicalLine(), Collect(RawLinesOf(), doc[..n]), RawLines(doc[n].pieces));
      FoldingIsText(doc[n]);
    }
  }

  lemma {:induction false} EndedIsText(lines: seq<Bytes>)
    requires forall l <- lines :: 0 !in l
    ensures 0 !in Ended(lines)
  {
    if lines != [] { EndedIsText(lines[1..]); }
  }

  /** The reader sees the export's logical lines, and an empty one after the last terminator. */
  lemma {:induction false} ReaderSeesTheLines(doc: seq<Folded>)
    requires forall f <- doc :: IsFolding(f)
    ensures LogicalLines(PhysicalLines(Rendered(doc))) == Collect(LogicalOf(), doc) + [[]]
  {
    var raw := Collect(RawLinesOf(), doc);
    RawIsText(doc);
    FieldsOfEnded(raw);
    PhysicalStep(raw, []);
    DocUnfolds(doc);
    ReadOne(Collect(LinesOf(), doc), []);
  }

  // --- the whole file -----------------------------------------------------------------------

  ghost predicate Means(lines: seq<Bytes>, doc: seq<Folded>) {
    && (forall l <- lines :: IsLdifLine(l))
    && ((exists l <- lines :: IsDnLine(l)) <==> exists f <- doc :: NamesDn(f.entry))
    && Collect(ObjectOf(), lines) == Collect(ObjectsOf(), doc)
  }

  lemma {:induction false} OneMoreLineMeans(lines: seq<Bytes>, doc: seq<Folded>, line: Bytes, f: Folded)
    requires Means(lines, doc)
    requires IsLdifLine(line) && (IsDnLine(line) <==> NamesDn(f.entry)) && ObjectIn(line) == EmbeddedObject(f.entry)
    ensures Means(lines + [line], doc + [f])
  {
    CollectJoin(ObjectOf(), lines, [line]);
    CollectOne(ObjectOf(), line);
    CollectJoin(ObjectsOf(), doc, [f]);
    CollectOne(ObjectsOf(), f);
    assert forall l :: l in lines + [line] <==> l in lines || l == line;
    assert forall g :: g in doc + [f] <==> g in doc || g == f;
  }

  lemma {:induction false} LastLine(doc: seq<Folded>)
    requires doc != []
    ensures var n := |doc| - 1;
      doc == doc[..n] + [doc[n]] && Collect(LogicalOf(), doc) == Collect(LogicalOf(), doc[..n]) + [LineOf(doc[n].entry)]
  {
  }

  lemma {:induction false} LinesMean(doc: seq<Folded>)
    requires forall f <- doc :: IsFolding(f)
    ensures Means(Collect(LogicalOf(), doc), doc)
  {
    if doc != [] {
      var n := |doc| - 1;
      LinesMean(doc[..n]);
      assert IsFolding(doc[n]);
      LineMeans(doc[n].entry);
      OneMoreLineMeans(Collect(LogicalOf(), doc[..n]), doc[..n], LineOf(doc[n].entry), doc[n]);
      LastLine(doc);
    }
  }

  lemma {:induction false} DnLineBegins(e: Entry)
    requires WellFormed(e) && NamesDn(e)
    ensures LineOf(e) != [] && LineOf(e)[0] != 0x30
  {
    assert e.attr[0] in {68, 100};
  }

  lemma {:induction false} FirstByte(doc: seq<Folded>)
    requires doc != [] && IsFolding(doc[0]) && NamesDn(doc[0].entry)
    ensures Rendered(doc) != [] && Rendered(doc)[0] != 0x30
  {
    var f := doc[0];
    FirstPieceComesFirst(f.pieces);
    DnLineBegins(f.entry);
    CollectJoin(RawLinesOf(), [f], doc[1..]);
    CollectOne(RawLinesOf(), f);
    assert doc == [f] + doc[1..];
    var raw := Collect(RawLinesOf(), doc);
    assert raw[0] == RawLine(f.pieces[0], true);
  }

  lemma {:induction false} MeaningIsRecovered(bytes: Bytes, doc: seq<Folded>)
    requires Means(LogicalLines(PhysicalLines(bytes)), doc) && exists f <- doc :: NamesDn(f.entry)
    ensures SignedObjects(bytes) == Collect(ObjectsOf(), doc)
  {
  }

  lemma {:induction false} SignedObjectsAreRecovered(doc: seq<Folded>)
    requires (forall f <- doc :: IsFolding(f)) && exists f <- doc :: NamesDn(f.entry)
    ensures SignedObjects(Rendered(doc)) == Collect(ObjectsOf(), doc)
  {
    ReaderSeesTheLines(doc);
    LinesMean(doc);
    var separator := Folded(Separator, [Piece([], false)]);
    OneMoreLineMeans(Collect(LogicalOf(), doc), doc, [], separator);
    var f :| f in doc && NamesDn(f.entry);
    assert f in doc + [separator];
    MeaningIsRecovered(Rendered(doc), doc + [separator]);
    CollectJoin(ObjectsOf(), doc, [separator]);
    CollectOne(ObjectsOf(), separator);
  }

  /** masterListsIn recovers exactly the embedded values that are signed objects, byte for byte and in order. */
  lemma {:induction false} ExportIsRecovered(doc: seq<Folded>)
    requires doc != [] && (forall f <- doc :: IsFolding(f)) && NamesDn(doc[0].entry)
    ensures MasterLists(Rendered(doc)) == Collect(ObjectsOf(), doc)
  {
    FirstByte(doc);
    RawIsText(doc);
    EndedIsText(Collect(RawLinesOf(), doc));
    SignedObjectsAreRecovered(doc);
  }
}
