/** importMasterList as it runs: its passes over the lists of a file, and the store it reads and replaces. */
module CscaStore {
  import opened Core
  import opened CscaTypes
  import opened Sequences
  import opened CscaImport
  import CscaLaws
  import AnchorStateFile
  import Ldif
  import Text

  // --- pass one -----------------------------------------------------------------------

  /** Asking with each recorded fingerprint in turn. */
  method TryPins(seams: Seams, list: Bytes, records: seq<AcceptedSigner>) returns (r: Option<Verified>)
    ensures r == FirstPinned(seams, list, records)
  {
    var i := 0;
    assert records[0..] == records;
    while i < |records|
      invariant 0 <= i <= |records|
      invariant FirstPinned(seams, list, records) == FirstPinned(seams, list, records[i..])
    {
      var pinned := seams.verify(list, Some(records[i].fingerprint));
      if pinned.Ok? {
        return Some(pinned.value);
      }
      assert records[i..][1..] == records[i + 1..];
      i := i + 1;
    }
    assert records[i..] == [];
    return None;
  }

  /** One list: verified, matched to a signer the store may follow, measured against that signer's record. */
  method JudgeList(seams: Seams, prior: AnchorState, vouching: seq<Bytes>, list: Bytes)
    returns (r: Result<Verified, ListRefusal>)
    ensures r == Judge(seams, prior, vouching, list)
  {
    var seen := seams.verify(list, None);
    if seen.Err? {
      return Err(ListRefusal(RefusalFor(seen.error), None, None, None));
    }
    var chosen := Some(seen.value);
    if prior.present && RecordFor(prior.signers, seen.value.signer).None? {
      chosen := TryPins(seams, list, prior.signers);
      if chosen.None? {
        if !seams.chains(seen.value.cert, vouching) {
          return Err(ListRefusal(SignerChanged, Some(seen.value.signer), None, None));
        }
        chosen := Some(seen.value);
      }
    }
    var refusal := ReplayRefusal(prior, chosen.value);
    if refusal.Some? {
      return Err(refusal.value);
    }
    return Ok(chosen.value);
  }

  method PassOne(seams: Seams, prior: AnchorState, vouching: seq<Bytes>, lists: seq<Bytes>)
    returns (admitted: seq<Verified>, refusals: seq<ListRefusal>)
    ensures admitted == Collect(AdmittedFrom(seams, prior, vouching), lists)
    ensures refusals == Collect(RefusedFrom(seams, prior, vouching), lists)
  {
    admitted, refusals := [], [];
    for i := 0 to |lists|
      invariant admitted == Collect(AdmittedFrom(seams, prior, vouching), lists[..i])
      invariant refusals == Collect(RefusedFrom(seams, prior, vouching), lists[..i])
    {
      var verified := JudgeList(seams, prior, vouching, lists[i]);
      CollectStep(AdmittedFrom(seams, prior, vouching), lists, i);
      CollectStep(RefusedFrom(seams, prior, vouching), lists, i);
      if verified.Err? {
        refusals := refusals + [verified.error];
        continue;
      }
      admitted := admitted + [verified.value];
    }
    assert lists[..|lists|] == lists;
  }

  // --- the bar ---------------------------------------------------------------------------

  method FindDisplaced(prior: AnchorState, admitted: seq<Verified>) returns (displacedAt: Option<int>)
    ensures displacedAt == DisplacedAt(prior, admitted)
  {
    displacedAt := None;
    if prior.present {
      for i := 0 to |prior.signers|
        invariant displacedAt == NewestDisplaced(prior.signers[..i], admitted)
      {
        var record := prior.signers[i];
        assert prior.signers[..i + 1][..i] == prior.signers[..i];
        if record.signedAt.None? || Publishes(admitted, record.fingerprint) {
          continue;
        }
        if displacedAt.None? || record.signedAt.value > displacedAt.value {
          displacedAt := record.signedAt;
        }
      }
      assert prior.signers[..|prior.signers|] == prior.signers;
    }
  }

  // --- pass two ----------------------------------------------------------------------------

  method EnterSigner(signers: seq<AcceptedSigner>, established: bool, v: Verified) returns (r: seq<AcceptedSigner>)
    ensures r == Enter(signers, established, v)
  {
    var i := 0;
    while i < |signers| && signers[i].fingerprint != v.signer
      invariant 0 <= i <= |signers|
      invariant forall k :: 0 <= k < i ==> signers[k].fingerprint != v.signer
    {
      i := i + 1;
    }
    PositionIs(signers, v.signer, i);
    if i < |signers| {
      r := signers;
      if v.signedAt.Some? && (signers[i].signedAt.None? || v.signedAt.value > signers[i].signedAt.value) {
        r := signers[i := signers[i].(signedAt := v.signedAt)];
      }
    } else {
      r := signers + [AcceptedSigner(v.signer, established, v.signedAt)];
    }
  }

  lemma {:induction false} PositionIs(signers: seq<AcceptedSigner>, fingerprint: Fingerprint, i: nat)
    requires i <= |signers| && forall k :: 0 <= k < i ==> signers[k].fingerprint != fingerprint
    requires i < |signers| ==> signers[i].fingerprint == fingerprint
    ensures Position(signers, fingerprint) == if i < |signers| then Some(i) else None
  {
    if i > 0 && signers != [] {
      PositionIs(signers[1..], fingerprint, i - 1);
    }
  }

  lemma {:induction false} OneMoreSeen(seen: seq<Bytes>, a: Bytes)
    ensures var held := FirstOccurrences(seen); FirstOccurrences(seen + [a]) == if a in held then held else held + [a]
  {
    assert (seen + [a])[..|seen|] == seen;
  }

  function Members(s: seq<Bytes>): set<Bytes> { set a | a in s }

  method AddAnchor(
    anchors: seq<Bytes>, alreadyHeld: set<Bytes>, a: Bytes) returns (anchors': seq<Bytes>, alreadyHeld': set<Bytes>)
    requires alreadyHeld == Members(anchors)
    ensures anchors' == (if a in anchors then anchors else anchors + [a]) && alreadyHeld' == Members(anchors')
  {
    anchors', alreadyHeld' := anchors, alreadyHeld;
    if a !in alreadyHeld {
      alreadyHeld' := alreadyHeld + {a};
      anchors' := anchors + [a];
    }
  }

  /** Each anchor of a list is added unless it is held. */
  function AddedAll(held: seq<Bytes>, more: seq<Bytes>): seq<Bytes> {
    if more == [] then held
    else
      var anchors, a := AddedAll(held, more[..|more| - 1]), more[|more| - 1];
      if a in anchors then anchors else anchors + [a]
  }

  lemma {:induction false} AddedAllIsFirstOccurrences(before: seq<Bytes>, more: seq<Bytes>)
    ensures AddedAll(FirstOccurrences(before), more) == FirstOccurrences(before + more)
  {
    if more == [] {
      assert before + more == before;
    } else {
      var n := |more| - 1;
      AddedAllIsFirstOccurrences(before, more[..n]);
      OneMoreSeen(before + more[..n], more[n]);
      assert before + more == before + more[..n] + [more[n]];
    }
  }

  /** The anchors not held yet, in the order the list carries them. */
  method AddAnchors(
    held: seq<Bytes>, alreadyHeld: set<Bytes>, more: seq<Bytes>) returns (anchors: seq<Bytes>, alreadyHeld': set<Bytes>)
    requires alreadyHeld == Members(held)
    ensures anchors == AddedAll(held, more) && alreadyHeld' == Members(anchors)
  {
    anchors, alreadyHeld' := held, alreadyHeld;
    for i := 0 to |more|
      invariant anchors == AddedAll(held, more[..i]) && alreadyHeld' == Members(anchors)
    {
      assert more[..i + 1][..i] == more[..i];
      anchors, alreadyHeld' := AddAnchor(anchors, alreadyHeld', more[i]);
    }
    assert more[..|more|] == more;
  }

  method PassTwo(prior: AnchorState, displacedAt: Option<int>, admitted: seq<Verified>)
    returns (signers: seq<AcceptedSigner>, anchors: seq<Bytes>, refusals: seq<ListRefusal>)
    ensures var survivors := Collect(KeptBy(prior, displacedAt), admitted);
            && signers == Roster(prior.present, survivors)
            && anchors == FirstOccurrences(Collect(CarriedAnchors(), survivors))
    ensures refusals == Collect(BarredBy(prior, displacedAt), admitted)
  {
    signers, anchors, refusals := [], [], [];
    var alreadyHeld: set<Bytes> := {};
    ghost var survivors: seq<Verified> := [];
    for i := 0 to |admitted|
      invariant survivors == Collect(KeptBy(prior, displacedAt), admitted[..i])
      invariant signers == Roster(prior.present, survivors)
      invariant anchors == FirstOccurrences(Collect(CarriedAnchors(), survivors))
      invariant alreadyHeld == Members(anchors)
      invariant refusals == Collect(BarredBy(prior, displacedAt), admitted[..i])
    {
      var verified := admitted[i];
      CollectStep(KeptBy(prior, displacedAt), admitted, i);
      CollectStep(BarredBy(prior, displacedAt), admitted, i);
      if Barred(prior, displacedAt, verified) {
        refusals := refusals + [ListRefusal(Replayed, Some(verified.signer), verified.signedAt, displacedAt)];
        continue;
      }
      assert (survivors + [verified])[..|survivors|] == survivors;
      signers := EnterSigner(signers, prior.present, verified);
      AddedAllIsFirstOccurrences(Collect(CarriedAnchors(), survivors), verified.anchors);
      anchors, alreadyHeld :=
        AddAnchors(anchors, alreadyHeld, verified.anchors);
      survivors := survivors + [verified];
    }
    assert admitted[..|admitted|] == admitted;
  }

  // --- the store ----------------------------------------------------------------------------

  /** Where writing the store can stop: before anything live is touched, with some of the live anchors gone, or with
      the new anchors live and the state file holding whatever was written of it. */
  datatype Fault = NoFault | StagingFails | SwapFails(left: seq<Bytes>) | StateFails(written: string)

  /** What the store says: nothing without a readable state file. */
  function Established(stateText: Option<string>): AnchorState {
    if stateText.None? then NoState else AnchorStateFile.Parse(stateText.value)
  }

  /** The lists a file offers: those it carries, or itself as the one candidate. */
  function Offered(der: Bytes): (r: seq<Bytes>)
    ensures r != []
  {
    if Ldif.MasterLists(der) == [] then [der] else Ldif.MasterLists(der)
  }

  /** masterListsIn. */
  method MasterListsIn(fileBytes: Bytes) returns (lists: seq<Bytes>)
    ensures lists == Ldif.MasterLists(fileBytes)
  {
    if Ldif.IsSignedObject(fileBytes) {
      return [fileBytes];
    }
    if 0 in fileBytes {
      return [];
    }
    lists := Ldif.SignedObjectsInLdif(fileBytes);
  }

  class AnchorCache {
    var stateText: Option<string>
    var anchorFiles: seq<Bytes>

    constructor ()
      ensures stateText == None && anchorFiles == []
    {
      stateText, anchorFiles := None, [];
    }

    method State() returns (state: AnchorState)
      ensures state == Established(stateText)
    {
      if stateText.None? {
        return NoState;
      }
      state := AnchorStateFile.ReadState(stateText.value);
    }

    /** Anchors first, the state file last. */
    method Replace(anchors: seq<Bytes>, state: AnchorState, fault: Fault) returns (ok: bool)
      modifies this
      ensures ok == fault.NoFault?
      ensures match fault
              case NoFault => anchorFiles == anchors && stateText == Some(AnchorStateFile.Render(state))
              case StagingFails => anchorFiles == old(anchorFiles) && stateText == old(stateText)
              case SwapFails(left) => anchorFiles == left && stateText == old(stateText)
              case StateFails(written) => anchorFiles == anchors && stateText == Some(written)
    {
      if fault.StagingFails? {
        return false;
      }
      if fault.SwapFails? {
        anchorFiles := fault.left;
        return false;
      }
      anchorFiles := anchors;
      if fault.StateFails? {
        stateText := Some(fault.written);
        return false;
      }
      stateText := Some(AnchorStateFile.Render(state));
      return true;
    }

    /** importMasterList: judged against the anchors held before anything is written. */
    method ImportMasterList(seams: Seams, der: Bytes, now: int, fault: Fault) returns (r: Result<AnchorState, Refusal>)
      modifies this
      ensures var prior := Established(old(stateText));
              var vouching := if prior.present then old(anchorFiles) else [];
              match Import(seams, prior, vouching, Offered(der), now)
              case Err(refusal) =>
                r == Err(refusal) && anchorFiles == old(anchorFiles) && stateText == old(stateText)
              case Ok(accepted) =>
                if fault.NoFault?
                then && r == Ok(accepted.state) && anchorFiles == accepted.anchors
                     && stateText == Some(AnchorStateFile.Render(accepted.state))
                else && r.Err? && r.error.reason == CacheNotWritable
                     && r.error.trustedSigner == OnlySigner(prior)
                     && (fault.StagingFails? ==> anchorFiles == old(anchorFiles))
                     && (!fault.StateFails? ==> stateText == old(stateText))
    {
      var prior := State();
      var vouching := if prior.present then anchorFiles else [];
      var lists := MasterListsIn(der);
      if lists == [] {
        lists := [der];
      }
      var admitted, refused := PassOne(seams, prior, vouching, lists);
      var displacedAt := FindDisplaced(prior, admitted);
      var signers, anchors, barred := PassTwo(prior, displacedAt, admitted);
      var refusals := refused + barred;
      if signers == [] {
        var first := if refusals == [] then ListRefusal(NotAMasterList, None, None, None) else refusals[0];
        return Err(Refusal(first.reason, if |lists| == 1 then first.signer else None, OnlySigner(prior),
                           first.seenSignedAt, first.trustedSignedAt, |lists| % TWO32));
      }
      var next := AnchorState(true, signers, |anchors| % TWO32, IssuerCount(seams, anchors) % TWO32,
                              |lists| % TWO32, Summaries(refusals), now);
      var ok := Replace(anchors, next, fault);
      if !ok {
        return Err(Refusal(CacheNotWritable, if |signers| == 1 then Some(signers[0].fingerprint) else None,
                           OnlySigner(prior), None, None, next.listsOffered));
      }
      return Ok(next);
    }
  }

  // --- what an import writes, the next one reads ---------------------------------------------

  /** Signing times are 64-bit. */
  ghost predicate DatesFit(seams: Seams) {
    forall list, pin ::
      var v := seams.verify(list, pin);
      v.Ok? && v.value.signedAt.Some? ==> Text.INT64_MIN <= v.value.signedAt.value <= Text.INT64_MAX
  }

  lemma {:induction false} JudgedDateFits(seams: Seams, prior: AnchorState, vouching: seq<Bytes>, list: Bytes)
    requires DatesFit(seams)
    ensures var o := Judge(seams, prior, vouching, list);
            o.Ok? && o.value.signedAt.Some? ==> Text.INT64_MIN <= o.value.signedAt.value <= Text.INT64_MAX
  {
    var seen := seams.verify(list, None);
    var pinned := FirstPinned(seams, list, prior.signers);
    if pinned.Some? {
      var s :| s in prior.signers && seams.verify(list, Some(s.fingerprint)) == Ok(pinned.value);
    }
  }

  lemma {:induction false} RecordedDateFits(
    seams: Seams, prior: AnchorState, vouching: seq<Bytes>, lists: seq<Bytes>, r: AcceptedSigner)
    requires DatesFit(seams) && r in Decide(seams, prior, vouching, lists).roster && r.signedAt.Some?
    ensures Text.INT64_MIN <= r.signedAt.value <= Text.INT64_MAX
  {
    var survivors := Decide(seams, prior, vouching, lists).survivors;
    RosterMeaning(prior.present, survivors);
    assert Records(prior.present, survivors, r);
    var v :| v in survivors && v.signer == r.fingerprint && v.signedAt == r.signedAt;
    var list := CscaLaws.SurvivorOrigin(seams, prior, vouching, lists, v);
    JudgedDateFits(seams, prior, vouching, list);
  }

  lemma {:induction false} ImportedStateIsStorable(
    seams: Seams, prior: AnchorState, vouching: seq<Bytes>, lists: seq<Bytes>, now: int)
    requires DatesFit(seams) && Text.INT64_MIN <= now <= Text.INT64_MAX
    requires Import(seams, prior, vouching, lists, now).Ok?
    ensures AnchorStateFile.Storable(Import(seams, prior, vouching, lists, now).value.state)
  {
    var state := Import(seams, prior, vouching, lists, now).value.state;
    forall r | r in state.signers && r.signedAt.Some?
      ensures Text.INT64_MIN <= r.signedAt.value <= Text.INT64_MAX
    {
      RecordedDateFits(seams, prior, vouching, lists, r);
    }
  }

  /** Records never outnumber the lists offered, whose count is kept in 32 bits. */
  lemma {:induction false} CountsCarryTheRecords(
    seams: Seams, prior: AnchorState, vouching: seq<Bytes>, lists: seq<Bytes>, now: int)
    requires Import(seams, prior, vouching, lists, now).Ok?
    ensures var state := Import(seams, prior, vouching, lists, now).value.state;
            |state.signers| + |state.refusedLists| <= |lists| && state.listsOffered == |lists| % TWO32
  {
    CscaLaws.EveryListAccountedFor(seams, prior, vouching, lists);
    ImportedCounts(seams, prior, vouching, lists, now);
  }

  lemma {:induction false} NoWrap(n: nat)
    requires n < TWO32
    ensures n % TWO32 == n
  {
  }

  lemma {:induction false} ImportedCounts(
    seams: Seams, prior: AnchorState, vouching: seq<Bytes>, lists: seq<Bytes>, now: int)
    requires Import(seams, prior, vouching, lists, now).Ok?
    ensures
      var state := Import(seams, prior, vouching, lists, now).value.state;
      var d := Decide(seams, prior, vouching, lists);
      state.signers == d.roster && state.refusedLists == Summaries(d.refusals) && state.listsOffered == |lists| % TWO32
  {
  }

  /** A state an import writes reads back identical exactly when the 32-bit count of the lists still covers its records;
      below 2^32 lists it always does. */
  lemma {:induction false} ImportedStateReadsBack(
    seams: Seams, prior: AnchorState, vouching: seq<Bytes>, lists: seq<Bytes>, now: int)
    requires DatesFit(seams) && Text.INT64_MIN <= now <= Text.INT64_MAX
    requires Import(seams, prior, vouching, lists, now).Ok?
    ensures var state := Import(seams, prior, vouching, lists, now).value.state;
            && (Established(Some(AnchorStateFile.Render(state))) == state
                <==> |state.signers| + |state.refusedLists| <= |lists| % TWO32)
            && (|lists| < TWO32 ==> Established(Some(AnchorStateFile.Render(state))) == state)
  {
    ImportedStateIsStorable(seams, prior, vouching, lists, now);
    CountsCarryTheRecords(seams, prior, vouching, lists, now);
    AnchorStateFile.StateReadsBack(Import(seams, prior, vouching, lists, now).value.state);
    if |lists| < TWO32 {
      NoWrap(|lists|);
    }
  }
}
