/** The state file of the anchor store: AnchorCache::replace writes it, AnchorCache::state reads it. */
module AnchorStateFile {
  import opened Core
  import opened CscaTypes
  import opened Sequences
  import opened Text

  // --- spelling ----------------------------------------------------------------

  function RefusalName(reason: ImportRefusal): (s: string)
    ensures RefusalFromName(s) == Some(reason)
    ensures forall c <- s :: c != ',' && c != '\n'
  {
    match reason
    case NotAMasterList => "notAMasterList"
    case Empty => "empty"
    case Malformed => "malformed"
    case BadSignature => "badSignature"
    case SignerChanged => "signerChanged"
    case Replayed => "replayed"
    case CacheNotWritable => "cacheNotWritable"
  }

  function RefusalFromName(name: string): Option<ImportRefusal> {
    if name == "notAMasterList" then Some(NotAMasterList)
    else if name == "empty" then Some(Empty)
    else if name == "malformed" then Some(Malformed)
    else if name == "badSignature" then Some(BadSignature)
    else if name == "signerChanged" then Some(SignerChanged)
    else if name == "replayed" then Some(Replayed)
    else if name == "cacheNotWritable" then Some(CacheNotWritable)
    else None
  }

  function FingerprintFromHex(hex: string): Option<Fingerprint> {
    if |hex| != 64 then None
    else
      var bytes := FromHex(hex);
      if bytes.None? then None else Some(bytes.value)
  }

  function PublisherFields(s: AcceptedSigner): seq<string> {
    [ToHex(s.fingerprint), if s.identityEstablished then "1" else "0"]
    + if s.signedAt.Some? then [SignedDecimal(s.signedAt.value)] else []
  }

  function PublisherLine(s: AcceptedSigner): string { "publisher" + "=" + Joined(PublisherFields(s), ',') }

  function RefusedFields(r: RefusedList): seq<string> {
    [RefusalName(r.reason), if r.signer.Some? then ToHex(r.signer.value) else "-"]
  }

  function RefusedLine(r: RefusedList): string { "refused" + "=" + Joined(RefusedFields(r), ',') }

  function PublisherLines(signers: seq<AcceptedSigner>): seq<string> {
    seq(|signers|, i requires 0 <= i < |signers| => PublisherLine(signers[i]))
  }

  function RefusedLines(refused: seq<RefusedList>): seq<string> {
    seq(|refused|, i requires 0 <= i < |refused| => RefusedLine(refused[i]))
  }

  function CountLines(s: AnchorState): seq<string> {
    ["anchors" + "=" + SignedDecimal(s.anchorCount), "issuers" + "=" + SignedDecimal(s.issuerCount),
     "offered" + "=" + SignedDecimal(s.listsOffered), "acceptedAt" + "=" + SignedDecimal(s.acceptedAt)]
  }

  function RenderedLines(s: AnchorState): seq<string> {
    CountLines(s) + PublisherLines(s.signers) + RefusedLines(s.refusedLists)
  }

  /** The text a state is written as. */
  function Render(s: AnchorState): string { Terminated(RenderedLines(s)) }

  // --- reading -------------------------------------------------------------------

  /** What has been read so far, the single-signer spelling of older files included. */
  datatype Reading = Reading(
    out: AnchorState, unreadable: bool, legacySigner: Option<Fingerprint>, legacyPinned: bool,
    legacySignedAt: Option<int>)

  const Nothing := Reading(NoState, false, None, false, None)

  function ReadPublisher(r: Reading, value: string): Reading {
    var fields := Fields(value, ',');
    if |fields| < 2 || |fields| > 3 then r.(unreadable := true)
    else
      var fingerprint := FingerprintFromHex(fields[0]);
      var date := if |fields| == 3 then WholeInteger(fields[2]) else None;
      if fingerprint.None? || (fields[1] != "0" && fields[1] != "1") || (|fields| == 3 && date.None?)
      then r.(unreadable := true)
      else r.(out := r.out.(signers := r.out.signers + [AcceptedSigner(fingerprint.value, fields[1] == "1", date)]))
  }

  function ReadRefused(r: Reading, value: string): Reading {
    var fields := Fields(value, ',');
    var reason := RefusalFromName(fields[0]);
    var named := |fields| == 2 && fields[1] != "-";
    var signer := if named then FingerprintFromHex(fields[1]) else None;
    if |fields| > 2 || reason.None? || (named && signer.None?) then r.(unreadable := true)
    else r.(out := r.out.(refusedLists := r.out.refusedLists + [RefusedList(reason.value, signer)]))
  }

  datatype Key =
    | Publisher | RefusedKey | Signer | SignerPinned | Anchors | Issuers | Offered | AcceptedAt | SignedAt | Other

  function KeyOf(name: string): Key {
    if name == "publisher" then Publisher
    else if name == "refused" then RefusedKey
    else if name == "signer" then Signer
    else if name == "signerPinned" then SignerPinned
    else if name == "anchors" then Anchors
    else if name == "issuers" then Issuers
    else if name == "offered" then Offered
    else if name == "acceptedAt" then AcceptedAt
    else if name == "signedAt" then SignedAt
    else Other
  }

  function ReadEntry(r: Reading, key: Key, value: string): Reading {
    match key
    case Publisher => ReadPublisher(r, value)
    case RefusedKey => ReadRefused(r, value)
    case Signer =>
      var signer := FingerprintFromHex(value);
      r.(legacySigner := signer, unreadable := r.unreadable || signer.None?)
    case SignerPinned => r.(legacyPinned := value == "1")
    case Anchors => r.(out := r.out.(anchorCount := LooseU32(value)))
    case Issuers => r.(out := r.out.(issuerCount := LooseU32(value)))
    case Offered => r.(out := r.out.(listsOffered := LooseU32(value)))
    case AcceptedAt => r.(out := r.out.(acceptedAt := LooseI64(value)))
    case SignedAt =>
      var date := WholeInteger(value);
      r.(legacySignedAt := date, unreadable := r.unreadable || date.None?)
    case Other => r
  }

  function ReadLine(r: Reading, line: string): Reading {
    var eq := Find(line, '=');
    if eq.None? then r else ReadEntry(r, KeyOf(line[..eq.value]), line[eq.value + 1..])
  }

  function ReadStep(): (Reading, string) -> Reading { (r: Reading, line: string) => ReadLine(r, line) }

  function WithLegacy(r: Reading): AnchorState {
    if r.out.signers == [] && r.legacySigner.Some?
    then r.out.(signers := [AcceptedSigner(r.legacySigner.value, r.legacyPinned, r.legacySignedAt)], listsOffered := 1)
    else r.out
  }

  function Conclude(r: Reading): AnchorState {
    var out := WithLegacy(r);
    if out.signers == [] || r.unreadable || out.listsOffered < |out.signers| + |out.refusedLists| then NoState
    else out.(present := true)
  }

  /** The state a file's text establishes. */
  function Parse(text: string): AnchorState { Conclude(Fold(ReadStep(), Nothing, Lines(text))) }

  // --- the reader's loop -------------------------------------------------------------

  /** AnchorCache::state, line by line. */
  method ReadState(text: string) returns (state: AnchorState)
    ensures state == Parse(text)
  {
    var r := Nothing;
    var at := 0;
    assert text[0..] == text;
    while at < |text|
      invariant 0 <= at <= |text|
      invariant Fold(ReadStep(), r, Lines(text[at..])) == Fold(ReadStep(), Nothing, Lines(text))
    {
      var end := LineEnd(text, at);
      var next := if end < |text| then end + 1 else end;
      LineAt(text, at, end);
      FoldJoin(ReadStep(), r, [text[at..end]], Lines(text[next..]));
      FoldOne(ReadStep(), r, text[at..end]);
      r := ReadLine(r, text[at..end]);
      at := next;
    }
    assert text[at..] == "";
    state := Conclude(r);
  }

  /** The end of the line that starts at a position. */
  method LineEnd(text: string, at: nat) returns (end: nat)
    requires at <= |text|
    ensures at <= end <= |text| && '\n' !in text[at..end]
    ensures end < |text| ==> text[end] == '\n'
  {
    end := at;
    while end < |text| && text[end] != '\n'
      invariant at <= end <= |text|
      invariant '\n' !in text[at..end]
    {
      end := end + 1;
    }
  }

  lemma {:induction false} LineAt(text: string, at: nat, end: nat)
    requires at <= end <= |text| && at < |text| && '\n' !in text[at..end]
    requires end < |text| ==> text[end] == '\n'
    ensures Lines(text[at..]) == [text[at..end]] + Lines(text[if end < |text| then end + 1 else end..])
  {
    var s, line := text[at..], text[at..end];
    if end < |text| {
      var rest := text[end + 1..];
      assert s == line + ['\n'] + rest;
      FindAfter(line, '\n', rest);
      assert s[..|line|] == line && s[|line| + 1..] == rest;
    } else {
      assert s == line;
      assert text[end..] == "";
    }
  }

  // --- what is written reads back -----------------------------------------------------

  ghost predicate Storable(s: AnchorState) {
    && s.present && s.signers != []
    && s.anchorCount < TWO32 && s.issuerCount < TWO32 && s.listsOffered < TWO32
    && INT64_MIN <= s.acceptedAt <= INT64_MAX
    && forall r <- s.signers :: r.signedAt.Some? ==> INT64_MIN <= r.signedAt.value <= INT64_MAX
  }

  lemma {:induction false} EntryLine(r: Reading, key: string, value: string)
    requires '=' !in key
    ensures ReadLine(r, key + "=" + value) == ReadEntry(r, KeyOf(key), value)
  {
    FindAfter(key, '=', value);
    assert (key + "=" + value)[..|key|] == key;
    assert (key + "=" + value)[|key| + 1..] == value;
  }

  lemma {:induction false} PublisherFieldsPlain(s: AcceptedSigner)
    ensures forall f <- PublisherFields(s) :: ',' !in f && '\n' !in f
  {
    assert NibbleValue(',').None? && NibbleValue('\n').None?;
    if s.signedAt.Some? { SignedDecimalAlphabet(s.signedAt.value); }
  }

  lemma {:induction false} RefusedFieldsPlain(r: RefusedList)
    ensures forall f <- RefusedFields(r) :: ',' !in f && '\n' !in f
  {
    assert NibbleValue(',').None? && NibbleValue('\n').None?;
  }

  function WithSigners(r: Reading, signers: seq<AcceptedSigner>): Reading {
    r.(out := r.out.(signers := r.out.signers + signers))
  }

  function WithRefused(r: Reading, refused: seq<RefusedList>): Reading {
    r.(out := r.out.(refusedLists := r.out.refusedLists + refused))
  }

  lemma {:induction false} PublisherReadsBack(r: Reading, s: AcceptedSigner)
    requires s.signedAt.Some? ==> INT64_MIN <= s.signedAt.value <= INT64_MAX
    ensures ReadLine(r, PublisherLine(s)) == WithSigners(r, [s])
  {
    EntryLine(r, "publisher", Joined(PublisherFields(s), ','));
    PublisherFieldsPlain(s);
    FieldsOfJoin(PublisherFields(s), ',');
    HexReadsBack(s.fingerprint);
    if s.signedAt.Some? { WholeIntegerReadsBack(s.signedAt.value); }
  }

  lemma {:induction false} RefusedValueReadsBack(r: Reading, l: RefusedList)
    ensures ReadRefused(r, Joined(RefusedFields(l), ',')) == WithRefused(r, [l])
  {
    RefusedFieldsPlain(l);
    FieldsOfJoin(RefusedFields(l), ',');
    if l.signer.Some? { HexReadsBack(l.signer.value); }
  }

  lemma {:induction false} RefusedReadsBack(r: Reading, l: RefusedList)
    ensures ReadLine(r, RefusedLine(l)) == WithRefused(r, [l])
  {
    EntryLine(r, "refused", Joined(RefusedFields(l), ','));
    RefusedValueReadsBack(r, l);
  }

  /** A reader that takes one record per line takes them all. */
  lemma {:induction false} SignersAccumulate(
    step: (Reading, string) -> Reading, r: Reading, lines: seq<string>, signers: seq<AcceptedSigner>)
    requires |lines| == |signers|
    requires forall i, q :: 0 <= i < |lines| ==> step(q, lines[i]) == WithSigners(q, [signers[i]])
    ensures Fold(step, r, lines) == WithSigners(r, signers)
    decreases |lines|
  {
    if lines == [] {
      assert r.out.signers + signers == r.out.signers;
    } else {
      var next := WithSigners(r, [signers[0]]);
      SignersAccumulate(step, next, lines[1..], signers[1..]);
      assert r.out.signers + [signers[0]] + signers[1..] == r.out.signers + signers;
    }
  }

  lemma {:induction false} RefusalsAccumulate(
    step: (Reading, string) -> Reading, r: Reading, lines: seq<string>, refused: seq<RefusedList>)
    requires |lines| == |refused|
    requires forall i, q :: 0 <= i < |lines| ==> step(q, lines[i]) == WithRefused(q, [refused[i]])
    ensures Fold(step, r, lines) == WithRefused(r, refused)
    decreases |lines|
  {
    if lines == [] {
      assert r.out.refusedLists + refused == r.out.refusedLists;
    } else {
      var next := WithRefused(r, [refused[0]]);
      RefusalsAccumulate(step, next, lines[1..], refused[1..]);
      assert r.out.refusedLists + [refused[0]] + refused[1..] == r.out.refusedLists + refused;
    }
  }

  lemma {:induction false} NumberReadsBack(r: Reading, name: string, i: int)
    requires '=' !in name && KeyOf(name) in {Anchors, Issuers, Offered, AcceptedAt}
    requires if KeyOf(name) == AcceptedAt then INT64_MIN <= i <= INT64_MAX else 0 <= i < TWO32
    ensures ReadLine(r, name + "=" + SignedDecimal(i)) ==
            match KeyOf(name)
            case Anchors => r.(out := r.out.(anchorCount := i))
            case Issuers => r.(out := r.out.(issuerCount := i))
            case Offered => r.(out := r.out.(listsOffered := i))
            case _ => r.(out := r.out.(acceptedAt := i))
  {
    EntryLine(r, name, SignedDecimal(i));
    LooseReadsBack(i);
  }

  lemma {:induction false} CountsAccumulate(
    step: (Reading, string) -> Reading, lines: seq<string>, s: AnchorState)
    requires |lines| == 4
    requires forall q :: step(q, lines[0]) == q.(out := q.out.(anchorCount := s.anchorCount))
    requires forall q :: step(q, lines[1]) == q.(out := q.out.(issuerCount := s.issuerCount))
    requires forall q :: step(q, lines[2]) == q.(out := q.out.(listsOffered := s.listsOffered))
    requires forall q :: step(q, lines[3]) == q.(out := q.out.(acceptedAt := s.acceptedAt))
    ensures Fold(step, Nothing, lines) == Nothing.(out := s.(present := false, signers := [], refusedLists := []))
  {
    FoldFour(step, Nothing, lines[0], lines[1], lines[2], lines[3]);
    assert lines == [lines[0], lines[1], lines[2], lines[3]];
  }

  lemma {:induction false} AnchorsReadBack(q: Reading, s: AnchorState)
    requires Storable(s)
    ensures ReadStep()(q, CountLines(s)[0]) == q.(out := q.out.(anchorCount := s.anchorCount))
  {
    NumberReadsBack(q, "anchors", s.anchorCount);
  }

  lemma {:induction false} IssuersReadBack(q: Reading, s: AnchorState)
    requires Storable(s)
    ensures ReadStep()(q, CountLines(s)[1]) == q.(out := q.out.(issuerCount := s.issuerCount))
  {
    NumberReadsBack(q, "issuers", s.issuerCount);
  }

  lemma {:induction false} OfferedReadBack(q: Reading, s: AnchorState)
    requires Storable(s)
    ensures ReadStep()(q, CountLines(s)[2]) == q.(out := q.out.(listsOffered := s.listsOffered))
  {
    NumberReadsBack(q, "offered", s.listsOffered);
  }

  lemma {:induction false} AcceptedAtReadBack(q: Reading, s: AnchorState)
    requires Storable(s)
    ensures ReadStep()(q, CountLines(s)[3]) == q.(out := q.out.(acceptedAt := s.acceptedAt))
  {
    NumberReadsBack(q, "acceptedAt", s.acceptedAt);
  }

  lemma {:induction false} CountsReadBack(s: AnchorState)
    requires Storable(s)
    ensures Fold(ReadStep(), Nothing, CountLines(s)) ==
            Nothing.(out := s.(present := false, signers := [], refusedLists := []))
  {
    var step, lines := ReadStep(), CountLines(s);
    forall q ensures step(q, lines[0]) == q.(out := q.out.(anchorCount := s.anchorCount)) { AnchorsReadBack(q, s); }
    forall q ensures step(q, lines[1]) == q.(out := q.out.(issuerCount := s.issuerCount)) { IssuersReadBack(q, s); }
    forall q ensures step(q, lines[2]) == q.(out := q.out.(listsOffered := s.listsOffered)) { OfferedReadBack(q, s); }
    forall q ensures step(q, lines[3]) == q.(out := q.out.(acceptedAt := s.acceptedAt)) { AcceptedAtReadBack(q, s); }
    CountsAccumulate(step, lines, s);
  }

  lemma {:induction false} JoinedPlain(fields: seq<string>)
    requires forall f <- fields :: '\n' !in f
    ensures '\n' !in Joined(fields, ',')
  {
    if |fields| > 1 { JoinedPlain(fields[1..]); }
  }

  lemma {:induction false} RecordsAreLines(s: AcceptedSigner, r: RefusedList)
    ensures '\n' !in PublisherLine(s) && '\n' !in RefusedLine(r)
  {
    PublisherFieldsPlain(s);
    JoinedPlain(PublisherFields(s));
    RefusedFieldsPlain(r);
    JoinedPlain(RefusedFields(r));
  }

  lemma {:induction false} CountsAreLines(s: AnchorState)
    ensures forall l <- CountLines(s) :: '\n' !in l
  {
    SignedDecimalAlphabet(s.anchorCount);
    SignedDecimalAlphabet(s.issuerCount);
    SignedDecimalAlphabet(s.listsOffered);
    SignedDecimalAlphabet(s.acceptedAt);
  }

  lemma {:induction false} RenderedLinesAreLines(s: AnchorState)
    ensures forall l <- RenderedLines(s) :: '\n' !in l
  {
    forall l | l in RenderedLines(s) ensures '\n' !in l {
      if l in CountLines(s) {
        CountsAreLines(s);
      } else if l in PublisherLines(s.signers) {
        var i :| 0 <= i < |s.signers| && l == PublisherLine(s.signers[i]);
        RecordsAreLines(s.signers[i], RefusedList(Empty, None));
      } else {
        var i :| 0 <= i < |s.refusedLists| && l == RefusedLine(s.refusedLists[i]);
        RecordsAreLines(AcceptedSigner(seq(32, _ => 0), false, None), s.refusedLists[i]);
      }
    }
  }

  lemma {:induction false} RecordsReadBack(s: AnchorState, r: Reading)
    requires Storable(s)
    ensures Fold(ReadStep(), r, PublisherLines(s.signers)) == WithSigners(r, s.signers)
    ensures Fold(ReadStep(), r, RefusedLines(s.refusedLists)) == WithRefused(r, s.refusedLists)
  {
    var publishers, refusals := PublisherLines(s.signers), RefusedLines(s.refusedLists);
    forall i, q | 0 <= i < |publishers| ensures ReadStep()(q, publishers[i]) == WithSigners(q, [s.signers[i]]) {
      PublisherReadsBack(q, s.signers[i]);
    }
    forall i, q | 0 <= i < |refusals| ensures ReadStep()(q, refusals[i]) == WithRefused(q, [s.refusedLists[i]]) {
      RefusedReadsBack(q, s.refusedLists[i]);
    }
    SignersAccumulate(ReadStep(), r, publishers, s.signers);
    RefusalsAccumulate(ReadStep(), r, refusals, s.refusedLists);
  }

  lemma {:induction false} RenderedReadsAs(s: AnchorState)
    requires Storable(s)
    ensures Fold(ReadStep(), Nothing, Lines(Render(s))) == Nothing.(out := s.(present := false))
  {
    RenderedLinesAreLines(s);
    LinesOfTerminated(RenderedLines(s));
    var counts, publishers, refusals := CountLines(s), PublisherLines(s.signers), RefusedLines(s.refusedLists);
    FoldJoin(ReadStep(), Nothing, counts + publishers, refusals);
    FoldJoin(ReadStep(), Nothing, counts, publishers);
    CountsReadBack(s);
    var r := Fold(ReadStep(), Nothing, counts);
    RecordsReadBack(s, r);
    RecordsReadBack(s, WithSigners(r, s.signers));
    assert [] + s.signers == s.signers && [] + s.refusedLists == s.refusedLists;
  }

  /** A written state reads back identical exactly when the lists it counts can carry its records and refusals;
      otherwise it reads as no state at all. */
  lemma {:induction false} StateReadsBack(s: AnchorState)
    requires Storable(s)
    ensures Parse(Render(s)) == s <==> |s.signers| + |s.refusedLists| <= s.listsOffered
    ensures Parse(Render(s)) == s || Parse(Render(s)) == NoState
  {
    RenderedReadsAs(s);
  }

  // --- a damaged file establishes nothing -----------------------------------------------

  lemma {:induction false} UnreadableStays(r: Reading, lines: seq<string>)
    requires r.unreadable
    ensures Fold(ReadStep(), r, lines).unreadable
    decreases |lines|
  {
    if lines != [] {
      UnreadableStays(ReadLine(r, lines[0]), lines[1..]);
    }
  }

  /** Wherever it stands, a publisher line whose date is present and not a whole integer makes the file establish
      nothing: damage never turns a dated record into an undated one. */
  lemma {:induction false} MangledDateEstablishesNothing(
    text: string, before: seq<string>, after: seq<string>, fields: seq<string>)
    requires |fields| == 3 && (forall f <- fields :: ',' !in f) && WholeInteger(fields[2]).None?
    requires Lines(text) == before + ["publisher" + "=" + Joined(fields, ',')] + after
    ensures Parse(text) == NoState
  {
    var line := "publisher" + "=" + Joined(fields, ',');
    var r := Fold(ReadStep(), Nothing, before);
    FoldJoin(ReadStep(), Nothing, before + [line], after);
    FoldJoin(ReadStep(), Nothing, before, [line]);
    FoldOne(ReadStep(), r, line);
    EntryLine(r, "publisher", Joined(fields, ','));
    FieldsOfJoin(fields, ',');
    UnreadableStays(ReadLine(r, line), after);
  }
}
