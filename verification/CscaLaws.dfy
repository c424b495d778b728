/** What holds of every import: it does not depend on the order of the lists nor on the anchors they carry,
    it never rolls a publisher back, and every list offered is accounted for. */
module CscaLaws {
  import opened Core
  import opened CscaTypes
  import opened Sequences
  import opened CscaImport

  ghost predicate SameElements<A>(s: seq<A>, t: seq<A>) {
    (forall x <- s :: x in t) && (forall x <- t :: x in s)
  }

  // --- order of the lists ----------------------------------------------------

  lemma {:induction false} DisplacedByContents(records: seq<AcceptedSigner>, a: seq<Verified>, b: seq<Verified>)
    requires SameElements(a, b)
    ensures NewestDisplaced(records, a) == NewestDisplaced(records, b)
  {
    if records != [] {
      DisplacedByContents(records[..|records| - 1], a, b);
    }
  }

  /** A publisher's record depends only on which lists there are. */
  lemma {:induction false} RosterByContents(established: bool, a: seq<Verified>, b: seq<Verified>)
    requires SameElements(a, b)
    ensures forall r <- Roster(established, a) :: r in Roster(established, b)
  {
    RosterMeaning(established, a);
    RosterMeaning(established, b);
    var other := Roster(established, b);
    forall r | r in Roster(established, a) ensures r in other {
      assert Records(established, a, r);
      var v :| v in a && v.signer == r.fingerprint;
      var at := Position(other, v.signer);
      assert Records(established, b, other[at.value]);
      LatestIsUnique(a, b, r.fingerprint, r.signedAt, other[at.value].signedAt);
      assert other[at.value] == r;
    }
  }

  lemma LatestIsUnique(a: seq<Verified>, b: seq<Verified>, fingerprint: Fingerprint, d: Option<int>, e: Option<int>)
    requires SameElements(a, b) && IsLatest(a, fingerprint, d) && IsLatest(b, fingerprint, e)
    ensures d == e
  {
    if d.Some? { var v :| v in a && v.signer == fingerprint && v.signedAt == d; assert v in b; }
    if e.Some? { var w :| w in b && w.signer == fingerprint && w.signedAt == e; assert w in a; }
  }

  ghost predicate SameDecision(a: Decision, b: Decision) {
    && multiset(a.survivors) == multiset(b.survivors)
    && multiset(a.refusals) == multiset(b.refusals)
    && SameElements(a.roster, b.roster) && |a.roster| == |b.roster|
    && SameElements(a.anchors, b.anchors) && |a.anchors| == |b.anchors|
  }

  lemma {:induction false} DecisionPermutes(
    seams: Seams, prior: AnchorState, vouching: seq<Bytes>, lists: seq<Bytes>, shuffled: seq<Bytes>)
    requires multiset(lists) == multiset(shuffled)
    ensures SameDecision(Decide(seams, prior, vouching, lists), Decide(seams, prior, vouching, shuffled))
  {
    var admit, refuse := AdmittedFrom(seams, prior, vouching), RefusedFrom(seams, prior, vouching);
    var a, b := Collect(admit, lists), Collect(admit, shuffled);
    CollectPermutes(admit, lists, shuffled);
    CollectPermutes(refuse, lists, shuffled);
    PermutationsShareElements(a, b);
    DisplacedByContents(prior.signers, a, b);
    var displaced := DisplacedAt(prior, a);
    CollectPermutes(KeptBy(prior, displaced), a, b);
    CollectPermutes(BarredBy(prior, displaced), a, b);
    SameSurvivorsSameStore(prior.present, Collect(KeptBy(prior, displaced), a), Collect(KeptBy(prior, displaced), b));
  }

  lemma {:induction false} SameSurvivorsSameStore(established: bool, a: seq<Verified>, b: seq<Verified>)
    requires multiset(a) == multiset(b)
    ensures SameElements(Roster(established, a), Roster(established, b))
    ensures |Roster(established, a)| == |Roster(established, b)|
    ensures SameElements(FirstOccurrences(Collect(CarriedAnchors(), a)), FirstOccurrences(Collect(CarriedAnchors(), b)))
    ensures |FirstOccurrences(Collect(CarriedAnchors(), a))| == |FirstOccurrences(Collect(CarriedAnchors(), b))|
  {
    PermutationsShareElements(a, b);
    RosterByContents(established, a, b);
    RosterByContents(established, b, a);
    RosterMeaning(established, a);
    RosterMeaning(established, b);
    SameLength(Roster(established, a), Roster(established, b));
    CollectPermutes(CarriedAnchors(), a, b);
    SameFirstOccurrences(Collect(CarriedAnchors(), a), Collect(CarriedAnchors(), b));
  }

  lemma {:induction false} SameFirstOccurrences(a: seq<Bytes>, b: seq<Bytes>)
    requires multiset(a) == multiset(b)
    ensures SameElements(FirstOccurrences(a), FirstOccurrences(b)) && |FirstOccurrences(a)| == |FirstOccurrences(b)|
  {
    PermutationsShareElements(a, b);
    FirstOccurrencesMeaning(a);
    FirstOccurrencesMeaning(b);
    SameLength(FirstOccurrences(a), FirstOccurrences(b));
  }

  lemma SameLength<A>(s: seq<A>, t: seq<A>)
    requires NoRepeats(s) && NoRepeats(t) && SameElements(s, t)
    ensures |s| == |t|
  {
    LengthWithoutRepeats(s);
    LengthWithoutRepeats(t);
    assert (set x | x in s) == (set x | x in t);
  }

  /** Permuting the lists of a file changes nothing but the order things are listed in. */
  lemma {:induction false} OrderIndependence(
    seams: Seams, prior: AnchorState, vouching: seq<Bytes>, lists: seq<Bytes>, shuffled: seq<Bytes>, now: int)
    requires multiset(lists) == multiset(shuffled)
    ensures var a, b := Import(seams, prior, vouching, lists, now), Import(seams, prior, vouching, shuffled, now);
            && a.Ok? == b.Ok?
            && (a.Ok? ==>
                  && SameElements(a.value.state.signers, b.value.state.signers)
                  && SameElements(a.value.anchors, b.value.anchors)
                  && multiset(a.value.state.refusedLists) == multiset(b.value.state.refusedLists)
                  && b.value.state == a.value.state.(signers := b.value.state.signers,
                                                     refusedLists := b.value.state.refusedLists))
            && (a.Err? ==> b.error.listsOffered == a.error.listsOffered
                           && b.error.trustedSigner == a.error.trustedSigner)
  {
    var a, b := Decide(seams, prior, vouching, lists), Decide(seams, prior, vouching, shuffled);
    DecisionPermutes(seams, prior, vouching, lists, shuffled);
    PermutationsShareElements(lists, shuffled);
    CollectPermutes(SummaryOf(), a.refusals, b.refusals);
    assert (set x | x in a.anchors :: seams.country(x)) == (set x | x in b.anchors :: seams.country(x));
  }

  // --- the anchors the lists carry --------------------------------------------

  ghost predicate SameButAnchors(v: Verified, w: Verified) { v == w.(anchors := v.anchors) }

  /** Two worlds in which every list verifies alike, but may carry different anchors. */
  ghost predicate DifferOnlyInAnchors(a: Seams, b: Seams) {
    && (forall list, pin ::
          match (a.verify(list, pin), b.verify(list, pin))
          case (Ok(v), Ok(w)) => SameButAnchors(v, w)
          case (Err(e), Err(f)) => e == f
          case _ => false)
    && (forall cert, anchors :: a.chains(cert, anchors) == b.chains(cert, anchors))
  }

  ghost predicate PairwiseAlike(vs: seq<Verified>, ws: seq<Verified>) {
    |vs| == |ws| && forall i :: 0 <= i < |vs| ==> SameButAnchors(vs[i], ws[i])
  }

  lemma {:induction false} PinnedAlike(a: Seams, b: Seams, list: Bytes, records: seq<AcceptedSigner>)
    requires DifferOnlyInAnchors(a, b)
    ensures var p, q := FirstPinned(a, list, records), FirstPinned(b, list, records);
            p.Some? == q.Some? && (p.Some? ==> SameButAnchors(p.value, q.value))
  {
    if records != [] {
      assert a.verify(list, Some(records[0].fingerprint)).Ok? == b.verify(list, Some(records[0].fingerprint)).Ok?;
      PinnedAlike(a, b, list, records[1..]);
    }
  }

  lemma {:induction false} JudgedAlike(a: Seams, b: Seams, prior: AnchorState, vouching: seq<Bytes>, list: Bytes)
    requires DifferOnlyInAnchors(a, b)
    ensures var o, p := Judge(a, prior, vouching, list), Judge(b, prior, vouching, list);
            o.Ok? == p.Ok? && (o.Ok? ==> SameButAnchors(o.value, p.value)) && (o.Err? ==> o.error == p.error)
  {
    PinnedAlike(a, b, list, prior.signers);
    assert a.verify(list, None).Ok? == b.verify(list, None).Ok?;
  }

  lemma {:induction false} AdmittedAlike(
    a: Seams, b: Seams, prior: AnchorState, vouching: seq<Bytes>, lists: seq<Bytes>)
    requires DifferOnlyInAnchors(a, b)
    ensures PairwiseAlike(Collect(AdmittedFrom(a, prior, vouching), lists),
                          Collect(AdmittedFrom(b, prior, vouching), lists))
    ensures Collect(RefusedFrom(a, prior, vouching), lists) == Collect(RefusedFrom(b, prior, vouching), lists)
  {
    if lists != [] {
      AdmittedAlike(a, b, prior, vouching, lists[..|lists| - 1]);
      JudgedAlike(a, b, prior, vouching, lists[|lists| - 1]);
    }
  }

  lemma {:induction false} BarAlike(prior: AnchorState, displaced: Option<int>, vs: seq<Verified>, ws: seq<Verified>)
    requires PairwiseAlike(vs, ws)
    ensures PairwiseAlike(Collect(KeptBy(prior, displaced), vs), Collect(KeptBy(prior, displaced), ws))
    ensures Collect(BarredBy(prior, displaced), vs) == Collect(BarredBy(prior, displaced), ws)
  {
    if vs != [] {
      var n := |vs| - 1;
      var kept := KeptBy(prior, displaced);
      OneBarAlike(prior, displaced, vs[n], ws[n]);
      BarAlike(prior, displaced, vs[..n], ws[..n]);
      JoinedAlike(Collect(kept, vs[..n]), Collect(kept, ws[..n]), kept(vs[n]), kept(ws[n]));
    }
  }

  lemma {:induction false} OneBarAlike(prior: AnchorState, displaced: Option<int>, v: Verified, w: Verified)
    requires SameButAnchors(v, w)
    ensures PairwiseAlike(KeptBy(prior, displaced)(v), KeptBy(prior, displaced)(w))
    ensures BarredBy(prior, displaced)(v) == BarredBy(prior, displaced)(w)
  {
  }

  lemma {:induction false} JoinedAlike(a: seq<Verified>, b: seq<Verified>, c: seq<Verified>, d: seq<Verified>)
    requires PairwiseAlike(a, b) && PairwiseAlike(c, d)
    ensures PairwiseAlike(a + c, b + d)
  {
  }

  lemma {:induction false} RosterAlike(established: bool, vs: seq<Verified>, ws: seq<Verified>)
    requires PairwiseAlike(vs, ws)
    ensures Roster(established, vs) == Roster(established, ws)
  {
    if vs != [] {
      assert SameButAnchors(vs[|vs| - 1], ws[|vs| - 1]);
      RosterAlike(established, vs[..|vs| - 1], ws[..|ws| - 1]);
    }
  }

  lemma {:induction false} DisplacedAlike(records: seq<AcceptedSigner>, vs: seq<Verified>, ws: seq<Verified>)
    requires PairwiseAlike(vs, ws)
    ensures NewestDisplaced(records, vs) == NewestDisplaced(records, ws)
  {
    if records != [] {
      var r := records[|records| - 1];
      DisplacedAlike(records[..|records| - 1], vs, ws);
      if Publishes(vs, r.fingerprint) { var i :| 0 <= i < |vs| && vs[i].signer == r.fingerprint; assert ws[i] in ws; }
      if Publishes(ws, r.fingerprint) { var i :| 0 <= i < |ws| && ws[i].signer == r.fingerprint; assert vs[i] in vs; }
    }
  }

  /** No list vouches for itself or for its neighbour: whatever anchors the lists carry, the same lists are
      admitted, with the same records and refusals, and a refused import is refused in the same words. */
  lemma {:induction false} CarriedAnchorsDecideNothing(
    a: Seams, b: Seams, prior: AnchorState, vouching: seq<Bytes>, lists: seq<Bytes>, now: int)
    requires DifferOnlyInAnchors(a, b)
    ensures PairwiseAlike(Decide(a, prior, vouching, lists).survivors, Decide(b, prior, vouching, lists).survivors)
    ensures var p, q := Import(a, prior, vouching, lists, now), Import(b, prior, vouching, lists, now);
            match (p, q)
            case (Ok(x), Ok(y)) => x.state.signers == y.state.signers && x.state.refusedLists == y.state.refusedLists
            case (Err(x), Err(y)) => x == y
            case _ => false
  {
    AdmittedAlike(a, b, prior, vouching, lists);
    var vs, ws := Collect(AdmittedFrom(a, prior, vouching), lists), Collect(AdmittedFrom(b, prior, vouching), lists);
    DisplacedAlike(prior.signers, vs, ws);
    var displaced := DisplacedAt(prior, vs);
    BarAlike(prior, displaced, vs, ws);
    RosterAlike(prior.present, Collect(KeptBy(prior, displaced), vs), Collect(KeptBy(prior, displaced), ws));
  }

  // --- no rollback ------------------------------------------------------------

  /** Why one surviving list was allowed in. */
  lemma {:induction false} JudgeAdmits(seams: Seams, prior: AnchorState, vouching: seq<Bytes>, list: Bytes)
    requires PinnedCallsAnswerThePin(seams)
    ensures var o := Judge(seams, prior, vouching, list);
            o.Ok? ==>
              var record := RecordFor(prior.signers, o.value.signer);
              && (record.Some? && record.value.signedAt.Some? ==>
                    o.value.signedAt.Some? && o.value.signedAt.value > record.value.signedAt.value)
              && (prior.present && record.None? ==>
                    seams.verify(list, None) == Ok(o.value) && seams.chains(o.value.cert, vouching))
  {
    var seen := seams.verify(list, None);
    if seen.Ok? {
      var pinned := FirstPinned(seams, list, prior.signers);
      if pinned.Some? {
        var s :| s in prior.signers && seams.verify(list, Some(s.fingerprint)) == Ok(pinned.value);
        assert pinned.value.signer == s.fingerprint;
        assert RecordFor(prior.signers, s.fingerprint).Some?;
      }
    }
  }

  lemma {:induction false} KeptElement(prior: AnchorState, displaced: Option<int>, admitted: seq<Verified>, v: Verified)
    ensures v in Collect(KeptBy(prior, displaced), admitted) <==> v in admitted && !Barred(prior, displaced, v)
  {
    if admitted != [] {
      var n := |admitted| - 1;
      assert admitted == admitted[..n] + [admitted[n]];
      KeptElement(prior, displaced, admitted[..n], v);
    }
  }

  lemma {:induction false} AdmittedElement(
    seams: Seams, prior: AnchorState, vouching: seq<Bytes>, lists: seq<Bytes>, v: Verified) returns (list: Bytes)
    requires v in Collect(AdmittedFrom(seams, prior, vouching), lists)
    ensures list in lists && Judge(seams, prior, vouching, list) == Ok(v)
  {
    var n := |lists| - 1;
    if v in Collect(AdmittedFrom(seams, prior, vouching), lists[..n]) {
      list := AdmittedElement(seams, prior, vouching, lists[..n], v);
    } else {
      list := lists[n];
    }
  }

  /** Where a surviving list came from, and the bar it cleared. */
  lemma {:induction false} SurvivorOrigin(
    seams: Seams, prior: AnchorState, vouching: seq<Bytes>, lists: seq<Bytes>, v: Verified) returns (list: Bytes)
    requires v in Decide(seams, prior, vouching, lists).survivors
    ensures list in lists && Judge(seams, prior, vouching, list) == Ok(v)
    ensures !Barred(prior, DisplacedAt(prior, Collect(AdmittedFrom(seams, prior, vouching), lists)), v)
  {
    var admitted := Collect(AdmittedFrom(seams, prior, vouching), lists);
    KeptElement(prior, DisplacedAt(prior, admitted), admitted, v);
    list := AdmittedElement(seams, prior, vouching, lists, v);
  }

  /** A recorded publisher the file still carries is never barred, so what is dropped was displaced. */
  lemma {:induction false} DroppedWasDisplaced(
    seams: Seams, prior: AnchorState, vouching: seq<Bytes>, lists: seq<Bytes>, s: AcceptedSigner)
    requires s in prior.signers && prior.present && s.signedAt.Some?
    requires !Publishes(Decide(seams, prior, vouching, lists).survivors, s.fingerprint)
    ensures var d := DisplacedAt(prior, Collect(AdmittedFrom(seams, prior, vouching), lists));
            d.Some? && s.signedAt.value <= d.value
  {
    var admitted := Collect(AdmittedFrom(seams, prior, vouching), lists);
    var displaced := DisplacedAt(prior, admitted);
    if Publishes(admitted, s.fingerprint) {
      var v :| v in admitted && v.signer == s.fingerprint;
      KeptElement(prior, displaced, admitted, v);
    }
  }

  /** A publisher on record with a date is in the next state only with a strictly later one. */
  lemma {:induction false} KnownPublisherMovesForward(
    seams: Seams, prior: AnchorState, vouching: seq<Bytes>, lists: seq<Bytes>, now: int, r: AcceptedSigner)
    requires PinnedCallsAnswerThePin(seams)
    requires Import(seams, prior, vouching, lists, now).Ok?
    requires r in Import(seams, prior, vouching, lists, now).value.state.signers
    ensures var was := RecordFor(prior.signers, r.fingerprint);
            was.Some? && was.value.signedAt.Some? ==>
              r.signedAt.Some? && r.signedAt.value > was.value.signedAt.value
  {
    var survivors := Decide(seams, prior, vouching, lists).survivors;
    RosterMeaning(prior.present, survivors);
    assert Records(prior.present, survivors, r);
    var v :| v in survivors && v.signer == r.fingerprint;
    var list := SurvivorOrigin(seams, prior, vouching, lists, v);
    JudgeAdmits(seams, prior, vouching, list);
  }

  /** A publisher new to a store that already follows someone signed a list whose certificate chains to an anchor
      held before the import, and is dated after every dated publisher the import drops. */
  lemma {:induction false} NewPublisherIsVouchedFor(
    seams: Seams, prior: AnchorState, vouching: seq<Bytes>, lists: seq<Bytes>, now: int, r: AcceptedSigner)
    requires PinnedCallsAnswerThePin(seams)
    requires Import(seams, prior, vouching, lists, now).Ok?
    requires r in Import(seams, prior, vouching, lists, now).value.state.signers
    requires prior.present && RecordFor(prior.signers, r.fingerprint).None?
    ensures exists list, v :: list in lists && seams.verify(list, None) == Ok(v)
                              && v.signer == r.fingerprint && seams.chains(v.cert, vouching)
    ensures forall s <- prior.signers ::
              s.signedAt.Some?
              && Position(Import(seams, prior, vouching, lists, now).value.state.signers, s.fingerprint).None?
              ==> r.signedAt.Some? && r.signedAt.value > s.signedAt.value
  {
    var survivors := Decide(seams, prior, vouching, lists).survivors;
    RosterMeaning(prior.present, survivors);
    assert Records(prior.present, survivors, r);
    var v :| v in survivors && v.signer == r.fingerprint;
    var list := SurvivorOrigin(seams, prior, vouching, lists, v);
    JudgeAdmits(seams, prior, vouching, list);
    assert list in lists && seams.verify(list, None) == Ok(v);
    forall s | s in prior.signers && s.signedAt.Some?
               && Position(Import(seams, prior, vouching, lists, now).value.state.signers, s.fingerprint).None?
      ensures r.signedAt.Some? && r.signedAt.value > s.signedAt.value
    {
      DroppedWasDisplaced(seams, prior, vouching, lists, s);
    }
  }

  ghost predicate IsNewest(signers: seq<AcceptedSigner>, s: AcceptedSigner) {
    s in signers && s.signedAt.Some?
    && forall t <- signers :: t.signedAt.Some? ==> t.signedAt.value <= s.signedAt.value
  }

  ghost predicate DatedAfter(d: Option<int>, s: AcceptedSigner) {
    d.Some? && s.signedAt.Some? && d.value > s.signedAt.value
  }

  /** The newest date of the store moves strictly forward exactly when the file has a list that is admitted by itself
      and is dated after it. */
  lemma {:induction false} NewestDateMovesExactly(
    seams: Seams, prior: AnchorState, vouching: seq<Bytes>, lists: seq<Bytes>, now: int, newest: AcceptedSigner)
    requires Import(seams, prior, vouching, lists, now).Ok? && prior.present && IsNewest(prior.signers, newest)
    ensures var next := Import(seams, prior, vouching, lists, now).value.state.signers;
            (exists r :: r in next && DatedAfter(r.signedAt, newest))
            <==> exists list :: list in lists && AdmitsAfter(seams, prior, vouching, list, newest)
  {
    var survivors := Decide(seams, prior, vouching, lists).survivors;
    RosterMeaning(prior.present, survivors);
    if r :| r in Import(seams, prior, vouching, lists, now).value.state.signers && DatedAfter(r.signedAt, newest) {
      assert Records(prior.present, survivors, r);
      var v :| v in survivors && v.signer == r.fingerprint && v.signedAt == r.signedAt;
      var list := SurvivorOrigin(seams, prior, vouching, lists, v);
      assert AdmitsAfter(seams, prior, vouching, list, newest);
    }
    if list :| list in lists && AdmitsAfter(seams, prior, vouching, list, newest) {
      var v := Judge(seams, prior, vouching, list).value;
      NewerListSurvives(seams, prior, vouching, lists, list, newest);
      var r := RecordOfSurvivor(prior.present, survivors, v);
    }
  }

  /** A list admitted by itself, and dated after a record. */
  ghost predicate AdmitsAfter(seams: Seams, prior: AnchorState, vouching: seq<Bytes>, list: Bytes, s: AcceptedSigner) {
    var o := Judge(seams, prior, vouching, list);
    o.Ok? && DatedAfter(o.value.signedAt, s)
  }

  /** A list dated after the newest record is never barred. */
  lemma {:induction false} NewerListSurvives(
    seams: Seams, prior: AnchorState, vouching: seq<Bytes>, lists: seq<Bytes>, list: Bytes, newest: AcceptedSigner)
    requires prior.present && IsNewest(prior.signers, newest)
    requires list in lists && AdmitsAfter(seams, prior, vouching, list, newest)
    ensures Judge(seams, prior, vouching, list).value in Decide(seams, prior, vouching, lists).survivors
  {
    var v := Judge(seams, prior, vouching, list).value;
    var admitted := Collect(AdmittedFrom(seams, prior, vouching), lists);
    assert v in AdmittedFrom(seams, prior, vouching)(list);
    CollectElements(AdmittedFrom(seams, prior, vouching), lists, v);
    KeptElement(prior, DisplacedAt(prior, admitted), admitted, v);
  }

  lemma {:induction false} RecordOfSurvivor(established: bool, survivors: seq<Verified>, v: Verified)
    returns (r: AcceptedSigner)
    requires v in survivors && v.signedAt.Some?
    ensures r in Roster(established, survivors) && r.signedAt.Some? && r.signedAt.value >= v.signedAt.value
  {
    RosterMeaning(established, survivors);
    var roster := Roster(established, survivors);
    r := roster[Position(roster, v.signer).value];
    assert Records(established, survivors, r);
  }

  /** It does so whenever the publisher holding it stays or someone new comes in. */
  lemma {:induction false} NewestDateMovesForward(
    seams: Seams, prior: AnchorState, vouching: seq<Bytes>, lists: seq<Bytes>, now: int, newest: AcceptedSigner)
    requires PinnedCallsAnswerThePin(seams)
    requires Import(seams, prior, vouching, lists, now).Ok?
    requires prior.present && OneRecordPerPublisher(prior.signers) && IsNewest(prior.signers, newest)
    requires var next := Import(seams, prior, vouching, lists, now).value.state.signers;
             Position(next, newest.fingerprint).Some?
             || exists r :: r in next && RecordFor(prior.signers, r.fingerprint).None?
    ensures exists r :: r in Import(seams, prior, vouching, lists, now).value.state.signers
                        && r.signedAt.Some? && r.signedAt.value > newest.signedAt.value
  {
    var next := Import(seams, prior, vouching, lists, now).value.state.signers;
    var at := Position(next, newest.fingerprint);
    if at.Some? {
      RecordIsTheOne(prior.signers, newest);
      KnownPublisherMovesForward(seams, prior, vouching, lists, now, next[at.value]);
    } else {
      var r :| r in next && RecordFor(prior.signers, r.fingerprint).None?;
      NewPublisherIsVouchedFor(seams, prior, vouching, lists, now, r);
    }
  }

  lemma {:induction false} RecordIsTheOne(signers: seq<AcceptedSigner>, s: AcceptedSigner)
    requires OneRecordPerPublisher(signers) && s in signers
    ensures RecordFor(signers, s.fingerprint) == Some(s)
  {
    var r := RecordFor(signers, s.fingerprint);
    var i :| 0 <= i < |signers| && signers[i] == s;
    var j :| 0 <= j < |signers| && signers[j] == r.value;
    assert i == j;
  }

  lemma {:induction false} LoneRecord(prior: seq<AcceptedSigner>, next: seq<AcceptedSigner>)
    requires |prior| == 1 && next != [] && prior[0].signedAt.Some?
    ensures OneRecordPerPublisher(prior) && IsNewest(prior, prior[0])
    ensures Position(next, prior[0].fingerprint).Some? || exists r :: r in next && RecordFor(prior, r.fingerprint).None?
  {
    if Position(next, prior[0].fingerprint).None? {
      assert next[0] in next && next[0].fingerprint != prior[0].fingerprint;
      assert forall s <- prior :: s == prior[0];
      assert RecordFor(prior, next[0].fingerprint).None?;
    }
  }

  /** A verifier that knows one list. */
  function OnlyKnows(v: Verified): Seams {
    Seams(
      (l: Bytes, pin: Option<Fingerprint>) =>
        if pin.Some? && pin.value != v.signer then Err(SignerMismatch) else Ok(v),
      (cert: Bytes, anchors: seq<Bytes>) => false,
      (a: Bytes) => [])
  }

  function Holding(signers: seq<AcceptedSigner>): AnchorState { AnchorState(true, signers, 0, 0, 2, [], 0) }

  lemma {:induction false} LoneListDecides(prior: AnchorState, list: Bytes, v: Verified)
    requires RecordFor(prior.signers, v.signer).Some? && ReplayRefusal(prior, v).None?
    ensures Decide(OnlyKnows(v), prior, [], [list]).roster == [AcceptedSigner(v.signer, prior.present, v.signedAt)]
  {
    var seams := OnlyKnows(v);
    assert Judge(seams, prior, [], list) == Ok(v);
    CollectOne(AdmittedFrom(seams, prior, []), list);
    CollectOne(KeptBy(prior, DisplacedAt(prior, [v])), v);
    assert [v][..0] == [] && Roster(prior.present, []) == [];
  }

  lemma {:induction false} LoneListImports(prior: AnchorState, list: Bytes, v: Verified, now: int)
    requires RecordFor(prior.signers, v.signer).Some? && ReplayRefusal(prior, v).None?
    ensures var next := Import(OnlyKnows(v), prior, [], [list], now);
            next.Ok? && next.value.state.signers == [AcceptedSigner(v.signer, prior.present, v.signedAt)]
  {
    LoneListDecides(prior, list, v);
  }

  lemma {:induction false} OlderIsNoReplay(older: AcceptedSigner, newest: AcceptedSigner, date: int)
    requires older.signedAt.Some? && newest.signedAt.Some? && older.signedAt.value < date < newest.signedAt.value
    ensures var prior, v := Holding([older, newest]), Verified(older.fingerprint, Some(date), [], []);
            && RecordFor(prior.signers, v.signer).Some? && ReplayRefusal(prior, v).None?
            && IsNewest(prior.signers, newest) && PinnedCallsAnswerThePin(OnlyKnows(v))
  {
    assert RecordFor([older, newest], older.fingerprint) == Some(older);
    assert [older, newest][1] == newest;
  }

  /** Otherwise it may move back: a file of the older of two publishers is accepted, and no date left is as new as the
      one that was dropped. */
  lemma {:induction false} DroppedNewestIsForgotten(
    older: AcceptedSigner, newest: AcceptedSigner, list: Bytes, date: int, now: int)
    requires older.signedAt.Some? && newest.signedAt.Some? && older.fingerprint != newest.fingerprint
    requires older.signedAt.value < date < newest.signedAt.value
    ensures var seams, prior := OnlyKnows(Verified(older.fingerprint, Some(date), [], [])), Holding([older, newest]);
            var next := Import(seams, prior, [], [list], now);
            && PinnedCallsAnswerThePin(seams) && IsNewest(prior.signers, newest) && next.Ok?
            && forall r <- next.value.state.signers :: r.signedAt.Some? ==> r.signedAt.value < newest.signedAt.value
  {
    OlderIsNoReplay(older, newest, date);
    LoneListImports(Holding([older, newest]), list, Verified(older.fingerprint, Some(date), [], []), now);
  }

  /** A store holding one dated publisher always gains a strictly newer newest date. */
  lemma {:induction false} SingleDatedStoreMovesForward(
    seams: Seams, prior: AnchorState, vouching: seq<Bytes>, lists: seq<Bytes>, now: int)
    requires PinnedCallsAnswerThePin(seams)
    requires Import(seams, prior, vouching, lists, now).Ok?
    requires prior.present && |prior.signers| == 1 && prior.signers[0].signedAt.Some?
    ensures exists r :: r in Import(seams, prior, vouching, lists, now).value.state.signers
                        && r.signedAt.Some? && r.signedAt.value > prior.signers[0].signedAt.value
  {
    var next := Import(seams, prior, vouching, lists, now).value.state.signers;
    LoneRecord(prior.signers, next);
    NewestDateMovesForward(seams, prior, vouching, lists, now, prior.signers[0]);
  }

  // --- every list is accounted for ----------------------------------------------

  lemma {:induction false} SplitConserves<A, B, C>(f: A -> seq<B>, g: A -> seq<C>, s: seq<A>)
    requires forall x <- s :: |f(x)| + |g(x)| == 1
    ensures |Collect(f, s)| + |Collect(g, s)| == |s|
  {
    if s != [] {
      var n := |s| - 1;
      assert s == s[..n] + [s[n]];
      SplitConserves(f, g, s[..n]);
    }
  }

  /** Lists that survived plus lists refused are the lists offered; there is at most one record per surviving list,
      so the records and refusals of a state never outnumber the lists offered. */
  lemma {:induction false} EveryListAccountedFor(
    seams: Seams, prior: AnchorState, vouching: seq<Bytes>, lists: seq<Bytes>)
    ensures var d := Decide(seams, prior, vouching, lists);
            |d.survivors| + |d.refusals| == |lists| && |d.roster| <= |d.survivors|
            && |d.roster| + |Summaries(d.refusals)| <= |lists|
  {
    var admit, refuse := AdmittedFrom(seams, prior, vouching), RefusedFrom(seams, prior, vouching);
    SplitConserves(admit, refuse, lists);
    var admitted := Collect(admit, lists);
    var displaced := DisplacedAt(prior, admitted);
    SplitConserves(KeptBy(prior, displaced), BarredBy(prior, displaced), admitted);
    var d := Decide(seams, prior, vouching, lists);
    RosterMeaning(prior.present, d.survivors);
    SummariesLength(d.refusals);
  }

  lemma {:induction false} SummariesLength(refusals: seq<ListRefusal>)
    ensures |Summaries(refusals)| == |refusals|
  {
    if refusals != [] {
      SummariesLength(refusals[..|refusals| - 1]);
    }
  }

  /** The stored anchors are exactly those of the surviving lists, each once. */
  lemma {:induction false} StoredAnchorsAreTheUnion(
    seams: Seams, prior: AnchorState, vouching: seq<Bytes>, lists: seq<Bytes>, a: Bytes)
    ensures var d := Decide(seams, prior, vouching, lists);
            NoRepeats(d.anchors) && (a in d.anchors <==> exists v :: v in d.survivors && a in v.anchors)
  {
    var d := Decide(seams, prior, vouching, lists);
    CollectElements(CarriedAnchors(), d.survivors, a);
    FirstOccurrencesMeaning(Collect(CarriedAnchors(), d.survivors));
    if a in d.anchors { var v :| v in d.survivors && a in CarriedAnchors()(v); }
    if v :| v in d.survivors && a in v.anchors { assert a in CarriedAnchors()(v); }
  }
}
