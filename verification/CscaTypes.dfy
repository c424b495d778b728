/** What the anchor store remembers between imports, and the oracles an import asks. */
module CscaTypes {
  import opened Core

  /** SHA-256 of a publisher's SubjectPublicKeyInfo. */
  type Fingerprint = f: Bytes | |f| == 32 witness seq(32, _ => 0)

  const TWO32: nat := 0x1_0000_0000

  datatype ImportRefusal =
    | NotAMasterList | Empty | Malformed | BadSignature | SignerChanged | Replayed | CacheNotWritable

  /** What the CMS verification of one list can fail with. */
  datatype MasterListError =
    | NotMasterList | NoAnchors | Unreadable | SignatureFails | SignerMismatch

  /** One publisher on record. */
  datatype AcceptedSigner = AcceptedSigner(fingerprint: Fingerprint, identityEstablished: bool, signedAt: Option<int>)

  /** One list that contributed nothing. */
  datatype RefusedList = RefusedList(reason: ImportRefusal, signer: Option<Fingerprint>)

  datatype AnchorState = AnchorState(
    present: bool,
    signers: seq<AcceptedSigner>,
    anchorCount: nat,
    issuerCount: nat,
    listsOffered: nat,
    refusedLists: seq<RefusedList>,
    acceptedAt: int)

  const NoState := AnchorState(false, [], 0, 0, 0, [], 0)

  /** One list whose signature held: who signed it, when it says so, with which certificate, and what it carries. */
  datatype Verified = Verified(signer: Fingerprint, signedAt: Option<int>, cert: Bytes, anchors: seq<Bytes>)

  /** Foreign code an import calls: CMS verification (optionally pinned to one signer),
      path building to a set of anchors, and the country an anchor's subject names. */
  datatype Seams = Seams(
    verify: (Bytes, Option<Fingerprint>) -> Result<Verified, MasterListError>,
    chains: (Bytes, seq<Bytes>) -> bool,
    country: Bytes -> string)

  /** A pinned verification that succeeds answers for the signer it was pinned to. */
  ghost predicate PinnedCallsAnswerThePin(seams: Seams) {
    forall list, pin :: seams.verify(list, Some(pin)).Ok? ==> seams.verify(list, Some(pin)).value.signer == pin
  }

  /** The first record held for a publisher. */
  function RecordFor(signers: seq<AcceptedSigner>, fingerprint: Fingerprint): (r: Option<AcceptedSigner>)
    ensures r.Some? ==> r.value in signers && r.value.fingerprint == fingerprint
    ensures r.None? <==> forall s <- signers :: s.fingerprint != fingerprint
  {
    if signers == [] then None
    else if signers[0].fingerprint == fingerprint then Some(signers[0])
    else RecordFor(signers[1..], fingerprint)
  }

  ghost predicate OneRecordPerPublisher(signers: seq<AcceptedSigner>) {
    forall i, j :: 0 <= i < j < |signers| ==> signers[i].fingerprint != signers[j].fingerprint
  }
}
