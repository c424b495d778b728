/** Admission of a file of signed country-signing master lists (CscaAnchorImport.cpp):
    each list is judged alone, a bar for displaced publishers is drawn over the whole file,
    and what survives becomes the store. */
module CscaImport {
  import opened Core
  import opened CscaTypes
  import opened Sequences

  /** Why one list did not make it, with as much as could be read about it. */
  datatype ListRefusal = ListRefusal(
    reason: ImportRefusal, signer: Option<Fingerprint>, seenSignedAt: Option<int>, trustedSignedAt: Option<int>)

  /** Why the whole import was refused. */
  datatype Refusal = Refusal(
    reason: ImportRefusal, seenSigner: Option<Fingerprint>, trustedSigner: Option<Fingerprint>,
    seenSignedAt: Option<int>, trustedSignedAt: Option<int>, listsOffered: nat)

  /** An accepted import: the next state and the anchors stored beside it. */
  datatype Accepted = Accepted(state: AnchorState, anchors: seq<Bytes>)

  function RefusalFor(e: MasterListError): ImportRefusal {
    match e
    case NotMasterList => NotAMasterList
    case NoAnchors => Empty
    case Unreadable => Malformed
    case SignatureFails => BadSignature
    case SignerMismatch => SignerChanged
  }

  // --- one list ------------------------------------------------------------

  /** Whether a list may replace what was accepted from its own signer, by its date. */
  function ReplayRefusal(prior: AnchorState, incoming: Verified): Option<ListRefusal> {
    var record := RecordFor(prior.signers, incoming.signer);
    if record.None? || record.value.signedAt.None? then None
    else if incoming.signedAt.Some? && incoming.signedAt.value > record.value.signedAt.value then None
    else Some(ListRefusal(Replayed, Some(incoming.signer), incoming.signedAt, record.value.signedAt))
  }

  /** The list as signed by the first recorded publisher that did sign it. */
  function FirstPinned(seams: Seams, list: Bytes, records: seq<AcceptedSigner>): (r: Option<Verified>)
    ensures r.Some? ==> exists s :: s in records && seams.verify(list, Some(s.fingerprint)) == Ok(r.value)
  {
    if records == [] then None
    else
      var pinned := seams.verify(list, Some(records[0].fingerprint));
      if pinned.Ok? then Some(pinned.value) else FirstPinned(seams, list, records[1..])
  }

  /** Which of a list's signers it is taken to be from, if any the store may follow. */
  function Choose(
    seams: Seams, prior: AnchorState, vouching: seq<Bytes>, list: Bytes, seen: Verified): Option<Verified> {
    if !prior.present || RecordFor(prior.signers, seen.signer).Some? then Some(seen)
    else
      var pinned := FirstPinned(seams, list, prior.signers);
      if pinned.Some? then pinned
      else if seams.chains(seen.cert, vouching) then Some(seen)
      else None
  }

  /** One list, verified against its own signer and measured against the record held for it. */
  function Judge(seams: Seams, prior: AnchorState, vouching: seq<Bytes>, list: Bytes): Result<Verified, ListRefusal> {
    var seen := seams.verify(list, None);
    if seen.Err? then Err(ListRefusal(RefusalFor(seen.error), None, None, None))
    else
      var chosen := Choose(seams, prior, vouching, list, seen.value);
      if chosen.None? then Err(ListRefusal(SignerChanged, Some(seen.value.signer), None, None))
      else
        var replay := ReplayRefusal(prior, chosen.value);
        if replay.Some? then Err(replay.value) else Ok(chosen.value)
  }

  function AdmittedFrom(seams: Seams, prior: AnchorState, vouching: seq<Bytes>): Bytes -> seq<Verified> {
    list => var o := Judge(seams, prior, vouching, list); if o.Ok? then [o.value] else []
  }

  function RefusedFrom(seams: Seams, prior: AnchorState, vouching: seq<Bytes>): Bytes -> seq<ListRefusal> {
    list => var o := Judge(seams, prior, vouching, list); if o.Err? then [o.error] else []
  }

  // --- the whole file ------------------------------------------------------

  predicate Publishes(lists: seq<Verified>, fingerprint: Fingerprint) {
    exists v <- lists :: v.signer == fingerprint
  }

  function Later(a: Option<int>, b: Option<int>): Option<int> {
    if a.None? then b else if b.Some? && b.value > a.value then b else a
  }

  /** The newest date among the recorded publishers the file no longer carries. */
  function NewestDisplaced(records: seq<AcceptedSigner>, admitted: seq<Verified>): (r: Option<int>)
    ensures r.Some? ==> exists s :: s in records && s.signedAt == r && !Publishes(admitted, s.fingerprint)
    ensures forall s <- records :: s.signedAt.Some? && !Publishes(admitted, s.fingerprint) ==>
              r.Some? && s.signedAt.value <= r.value
  {
    if records == [] then None
    else
      var n := |records| - 1;
      var before := NewestDisplaced(records[..n], admitted);
      assert records == records[..n] + [records[n]];
      if Publishes(admitted, records[n].fingerprint) then before else Later(before, records[n].signedAt)
  }

  function DisplacedAt(prior: AnchorState, admitted: seq<Verified>): Option<int> {
    if prior.present then NewestDisplaced(prior.signers, admitted) else None
  }

  /** The bar for a signer there is no record of: it must be dated after every publisher the import displaces. */
  predicate Barred(prior: AnchorState, displaced: Option<int>, v: Verified) {
    displaced.Some? && RecordFor(prior.signers, v.signer).None?
    && (v.signedAt.None? || v.signedAt.value <= displaced.value)
  }

  function KeptBy(prior: AnchorState, displaced: Option<int>): Verified -> seq<Verified> {
    v => if Barred(prior, displaced, v) then [] else [v]
  }

  function BarredBy(prior: AnchorState, displaced: Option<int>): Verified -> seq<ListRefusal> {
    v => if Barred(prior, displaced, v)
         then [ListRefusal(Replayed, Some(v.signer), v.signedAt, displaced)] else []
  }

  /** The position of a publisher's record. */
  function Position(signers: seq<AcceptedSigner>, fingerprint: Fingerprint): (r: Option<nat>)
    ensures r.Some? ==> r.value < |signers| && signers[r.value].fingerprint == fingerprint
    ensures r.None? <==> forall s <- signers :: s.fingerprint != fingerprint
  {
    if signers == [] then None
    else if signers[0].fingerprint == fingerprint then Some(0)
    else
      var r := Position(signers[1..], fingerprint);
      if r.Some? then Some(r.value + 1) else None
  }

  /** One record per publisher: the later of its lists' dates is the one kept. */
  function Enter(signers: seq<AcceptedSigner>, established: bool, v: Verified): seq<AcceptedSigner> {
    var at := Position(signers, v.signer);
    if at.None? then signers + [AcceptedSigner(v.signer, established, v.signedAt)]
    else signers[at.value := signers[at.value].(signedAt := Later(signers[at.value].signedAt, v.signedAt))]
  }

  function Roster(established: bool, survivors: seq<Verified>): seq<AcceptedSigner> {
    if survivors == [] then []
    else Enter(Roster(established, survivors[..|survivors| - 1]), established, survivors[|survivors| - 1])
  }

  function CarriedAnchors(): Verified -> seq<Bytes> { (v: Verified) => v.anchors }

  /** Everything an import decides about a file, before it is stored. */
  datatype Decision = Decision(
    survivors: seq<Verified>, roster: seq<AcceptedSigner>, anchors: seq<Bytes>, refusals: seq<ListRefusal>)

  function Decide(seams: Seams, prior: AnchorState, vouching: seq<Bytes>, lists: seq<Bytes>): Decision {
    var admitted := Collect(AdmittedFrom(seams, prior, vouching), lists);
    var displaced := DisplacedAt(prior, admitted);
    var survivors := Collect(KeptBy(prior, displaced), admitted);
    Decision(
      survivors,
      Roster(prior.present, survivors),
      FirstOccurrences(Collect(CarriedAnchors(), survivors)),
      Collect(RefusedFrom(seams, prior, vouching), lists) + Collect(BarredBy(prior, displaced), admitted))
  }

  function SummaryOf(): ListRefusal -> seq<RefusedList> { (r: ListRefusal) => [RefusedList(r.reason, r.signer)] }

  function Summaries(refusals: seq<ListRefusal>): seq<RefusedList> { Collect(SummaryOf(), refusals) }

  function IssuerCount(seams: Seams, anchors: seq<Bytes>): nat {
    |set a | a in anchors :: seams.country(a)|
  }

  function OnlySigner(prior: AnchorState): Option<Fingerprint> {
    if prior.present && |prior.signers| == 1 then Some(prior.signers[0].fingerprint) else None
  }

  /** The outcome of an import whose store can be written. */
  function Import(seams: Seams, prior: AnchorState, vouching: seq<Bytes>, lists: seq<Bytes>, now: int)
    : Result<Accepted, Refusal>
  {
    var d := Decide(seams, prior, vouching, lists);
    if d.roster == [] then
      var first := if d.refusals == [] then ListRefusal(NotAMasterList, None, None, None) else d.refusals[0];
      Err(Refusal(first.reason, if |lists| == 1 then first.signer else None, OnlySigner(prior),
                  first.seenSignedAt, first.trustedSignedAt, |lists| % TWO32))
    else
      Ok(Accepted(
           AnchorState(true, d.roster, |d.anchors| % TWO32, IssuerCount(seams, d.anchors) % TWO32,
                       |lists| % TWO32, Summaries(d.refusals), now),
           d.anchors))
  }

  // --- what a roster says about the lists it was made of ---------------------

  /** d is the newest date among the lists of one publisher, absent when none is dated. */
  ghost predicate IsLatest(lists: seq<Verified>, fingerprint: Fingerprint, d: Option<int>) {
    && (forall v <- lists :: v.signer == fingerprint && v.signedAt.Some? ==> d.Some? && v.signedAt.value <= d.value)
    && (d.Some? ==> exists v :: v in lists && v.signer == fingerprint && v.signedAt == d)
  }

  ghost predicate Records(established: bool, lists: seq<Verified>, r: AcceptedSigner) {
    r.identityEstablished == established && Publishes(lists, r.fingerprint)
    && IsLatest(lists, r.fingerprint, r.signedAt)
  }

  lemma {:induction false} RosterMeaning(established: bool, lists: seq<Verified>)
    ensures OneRecordPerPublisher(Roster(established, lists))
    ensures forall r <- Roster(established, lists) :: Records(established, lists, r)
    ensures forall v <- lists :: Position(Roster(established, lists), v.signer).Some?
    ensures |Roster(established, lists)| <= |lists|
    ensures Roster(established, lists) == [] <==> lists == []
  {
    if lists != [] {
      var n := |lists| - 1;
      var before, v := Roster(established, lists[..n]), lists[n];
      assert lists == lists[..n] + [v];
      RosterMeaning(established, lists[..n]);
      var after := Enter(before, established, v);
      assert Roster(established, lists) == after;
      EnterShape(before, established, v);
      forall r | r in after ensures Records(established, lists, r) {
        EnteredRecord(established, lists[..n], v, before, r);
      }
      forall w | w in lists ensures Position(after, w.signer).Some? {
        EnterKeeps(before, established, v, w.signer);
      }
    }
  }

  lemma {:induction false} EnterShape(before: seq<AcceptedSigner>, established: bool, v: Verified)
    requires OneRecordPerPublisher(before)
    ensures OneRecordPerPublisher(Enter(before, established, v))
    ensures 1 <= |Enter(before, established, v)| <= |before| + 1
  {
    var at := Position(before, v.signer);
    if at.None? {
      assert forall i :: 0 <= i < |before| ==> before[i] in before && before[i].fingerprint != v.signer;
    }
  }

  lemma {:induction false} EnterKeeps(
    before: seq<AcceptedSigner>, established: bool, v: Verified, fingerprint: Fingerprint)
    requires Position(before, fingerprint).Some? || v.signer == fingerprint
    ensures Position(Enter(before, established, v), fingerprint).Some?
  {
    var after := Enter(before, established, v);
    var old' := Position(before, fingerprint);
    var i := if old'.Some? then old'.value else |before|;
    assert i < |after| && after[i] in after && after[i].fingerprint == fingerprint;
  }

  lemma {:induction false} EnteredRecord(
    established: bool, lists: seq<Verified>, v: Verified, before: seq<AcceptedSigner>, r: AcceptedSigner)
    requires forall s <- before :: Records(established, lists, s)
    requires forall w <- lists :: Position(before, w.signer).Some?
    requires OneRecordPerPublisher(before)
    requires r in Enter(before, established, v)
    ensures Records(established, lists + [v], r)
  {
    var all := lists + [v];
    assert forall w :: w in all <==> w in lists || w == v;
    var at := Position(before, v.signer);
    if at.None? {
      if r !in before {
        assert !Publishes(lists, v.signer);
        assert v in all;
      }
    } else {
      var was := before[at.value];
      assert Records(established, lists, was);
      if r.fingerprint == v.signer {
        assert r == was.(signedAt := Later(was.signedAt, v.signedAt));
      } else {
        assert r in before;
      }
    }
    if r in before && r.fingerprint != v.signer {
      assert Records(established, lists, r);
    }
    var w :| w in all && w.signer == r.fingerprint;
  }
}
