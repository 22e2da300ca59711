/**
 * Evidence records and their lifecycle (src/evidence_record.rs, src/event_evidence_verify.rs).
 */
module Evidence {
  import opened Text
  import opened Uuids
  import opened Merkle
  import opened Signing
  import opened Structure
  import opened OfflineVerifier

  datatype LifecycleStatus = Created | Registered | TsaConfirmed | Certified | Revoked
  datatype TsaStatus = Pending | Confirmed | Failed | Absent
  datatype TsaData = TsaData(timestamp: Option<int>, tokenBytes: Option<int>)
  datatype EvidenceProof = EvidenceProof(file: ProofFile, tsa: Option<TsaData>)

  // What a record says about the event it projects; nothing below changes it.
  datatype Subject = Subject(eventId: string, chainId: string, sha256: string)

  datatype IntegrityError =
    | HashMismatch | EventMissing | ChainMismatch | InvalidUuids
    | ParentBroken(at: nat) | SequenceBroken(at: nat) | EmptyRoot | RootMismatch | BadSignature

  datatype IntegrityResult = IntegrityResult(
    eventFound: bool, parentChainValid: bool, merkleRootValid: bool, signatureValid: bool,
    recomputedRoot: Option<string>, errors: seq<IntegrityError>)
  {
    predicate IsValid() {
      eventFound && parentChainValid && merkleRootValid && signatureValid && errors == []
    }
  }

  // ---------------------------------------------------------------- the integrity check

  function FirstIndex(leaves: seq<EventLeaf>, eventId: string): (k: nat)
    ensures k <= |leaves|
    ensures forall i | 0 <= i < k :: leaves[i].eventId != eventId
    ensures k < |leaves| ==> leaves[k].eventId == eventId
  {
    if leaves == [] || leaves[0].eventId == eventId then 0 else 1 + FirstIndex(leaves[1..], eventId)
  }

  // The rows whose UUIDs parse; the others are dropped.
  function ParsedRows(leaves: seq<EventLeaf>): (rows: seq<EventRow>)
    ensures |rows| <= |leaves|
  {
    if leaves == [] then []
    else match RowOf(leaves[|leaves| - 1])
      case Some(row) => ParsedRows(leaves[..|leaves| - 1]) + [row]
      case None => ParsedRows(leaves[..|leaves| - 1])
  }

  function StructureError(f: StructuralFailure): IntegrityError {
    match f
    case ParentChain(i) => ParentBroken(i)
    case Sequence(i) => SequenceBroken(i)
    case EmptyMerkle => EmptyRoot
  }

  // What the check promises: when a proof is valid evidence for a subject.
  ghost predicate ValidEvidence(h: Sha256, verify: Ed25519, s: Subject, file: ProofFile) {
    && (var k := FirstIndex(file.events, s.eventId);
        k < |file.events| && AsciiLower(file.events[k].fileHash) == AsciiLower(s.sha256))
    && file.chainId == s.chainId
    && Rows(file.events).Some?
    && Linked(Rows(file.events).value)
    && EventsRoot(h, Rows(file.events).value) == file.proof.root
    && VerifyRoot(verify, file.chainId, file.proof.root, file.proof.chainHead, file.proof.signature,
                  file.proof.publicKey)
  }

  function AddIf(errors: seq<IntegrityError>, c: bool, e: IntegrityError): (r: seq<IntegrityError>)
    ensures r == [] <==> errors == [] && !c
  {
    if c then errors + [e] else errors
  }

  // The value of the check.
  function Integrity(h: Sha256, verify: Ed25519, s: Subject, file: ProofFile): IntegrityResult {
    var structure := Outcome(h, ParsedRows(file.events));
    var signed := VerifyRoot(verify, file.chainId, file.proof.root, file.proof.chainHead,
                             file.proof.signature, file.proof.publicKey);
    IntegrityResult(
      FirstIndex(file.events, s.eventId) < |file.events|, structure.Ok?, structure == Ok(file.proof.root), signed,
      if structure.Ok? then Some(structure.value) else None,
      AddIf(StructureErrors(SubjectErrors(s, file), structure, file.proof.root), !signed, BadSignature))
  }

  function SubjectErrors(s: Subject, file: ProofFile): seq<IntegrityError> {
    var errors := AddIf(EventErrors(s, file.events), file.chainId != s.chainId, ChainMismatch);
    AddIf(errors, |ParsedRows(file.events)| != |file.events|, InvalidUuids)
  }

  function EventErrors(s: Subject, leaves: seq<EventLeaf>): seq<IntegrityError> {
    var k := FirstIndex(leaves, s.eventId);
    if k == |leaves| then [EventMissing]
    else AddIf([], AsciiLower(leaves[k].fileHash) != AsciiLower(s.sha256), HashMismatch)
  }

  function StructureErrors(errors: seq<IntegrityError>, structure: Result<string, StructuralFailure>,
                           root: string): (r: seq<IntegrityError>)
    ensures r == [] <==> errors == [] && structure == Ok(root)
  {
    match structure
    case Err(f) => errors + [StructureError(f)]
    case Ok(recomputed) => AddIf(errors, recomputed != root, RootMismatch)
  }

  // The loop over the proof's events: it stops at the first one with the record's event id.
  method FindEvent(s: Subject, leaves: seq<EventLeaf>) returns (found: bool, errors: seq<IntegrityError>)
    ensures found <==> exists i | 0 <= i < |leaves| :: leaves[i].eventId == s.eventId
    ensures errors == EventErrors(s, leaves)
  {
    errors, found := [], false;
    ghost var k := FirstIndex(leaves, s.eventId);
    var i := 0;
    while i < |leaves|
      invariant 0 <= i <= k
    {
      if leaves[i].eventId == s.eventId {
        found := true;
        if AsciiLower(leaves[i].fileHash) != AsciiLower(s.sha256) {
          errors := errors + [HashMismatch];
        }
        return;
      }
      i := i + 1;
    }
    errors := errors + [EventMissing];
  }

  // The two matches on the structural result.
  method CheckRoot(structure: Result<string, StructuralFailure>, root: string, before: seq<IntegrityError>)
      returns (parentChainValid: bool, merkleRootValid: bool, recomputedRoot: Option<string>,
               errors: seq<IntegrityError>)
    ensures parentChainValid == structure.Ok? && merkleRootValid == (structure == Ok(root))
    ensures recomputedRoot == if structure.Ok? then Some(structure.value) else None
    ensures errors == StructureErrors(before, structure, root)
  {
    errors := before;
    match structure {
      case Ok(recomputed) => parentChainValid, recomputedRoot := true, Some(recomputed);
      case Err(f) =>
        parentChainValid, recomputedRoot := false, None;
        errors := errors + [StructureError(f)];
    }
    match recomputedRoot {
      case Some(recomputed) =>
        merkleRootValid := recomputed == root;
        if !merkleRootValid {
          errors := errors + [RootMismatch];
        }
      case None => merkleRootValid := false;
    }
  }

  // verify_evidence_integrity
  method VerifyEvidenceIntegrity(h: Sha256, verify: Ed25519, s: Subject, file: ProofFile) returns (r: IntegrityResult)
    ensures r == Integrity(h, verify, s, file)
  {
    var eventFound, errors := FindEvent(s, file.events);
    if file.chainId != s.chainId {
      errors := errors + [ChainMismatch];
    }
    var rows := ParsedRows(file.events);
    if |rows| != |file.events| {
      errors := errors + [InvalidUuids];
    }
    assert errors == SubjectErrors(s, file);
    var structure := CheckEventStructure(h, rows);
    var parentChainValid, merkleRootValid, recomputedRoot;
    parentChainValid, merkleRootValid, recomputedRoot, errors := CheckRoot(structure, file.proof.root, errors);
    var signatureValid := VerifyRoot(verify, file.chainId, file.proof.root, file.proof.chainHead,
                                     file.proof.signature, file.proof.publicKey);
    if !signatureValid {
      errors := errors + [BadSignature];
    }
    r := IntegrityResult(eventFound, parentChainValid, merkleRootValid, signatureValid, recomputedRoot, errors);
  }

  lemma {:induction false} ParsedAll(leaves: seq<EventLeaf>)
    ensures |ParsedRows(leaves)| == |leaves| <==> Rows(leaves).Some?
    ensures Rows(leaves).Some? ==> Rows(leaves) == Some(ParsedRows(leaves))
  {
    if leaves != [] { ParsedAll(leaves[..|leaves| - 1]); }
  }

  // Main result: the flags never say anything the error list does not; a result is valid exactly
  // when no error was recorded, and exactly when the proof is valid evidence.
  lemma ValidIffNoErrors(h: Sha256, verify: Ed25519, s: Subject, file: ProofFile)
    ensures var r := Integrity(h, verify, s, file);
      && (r.IsValid() <==> r.errors == [])
      && (r.IsValid() <==> ValidEvidence(h, verify, s, file))
  {
    ParsedAll(file.events);
    OutcomeCharacterized(h, ParsedRows(file.events));
  }

  lemma FoundIff(leaves: seq<EventLeaf>, eventId: string)
    ensures FirstIndex(leaves, eventId) < |leaves| <==> exists i | 0 <= i < |leaves| :: leaves[i].eventId == eventId
  {
    if i :| 0 <= i < |leaves| && leaves[i].eventId == eventId {
      assert FirstIndex(leaves, eventId) <= i;
    }
  }

  function When(c: bool, e: IntegrityError): seq<IntegrityError> {
    if c then [e] else []
  }

  lemma AddIfIs(errors: seq<IntegrityError>, c: bool, e: IntegrityError)
    ensures AddIf(errors, c, e) == errors + When(c, e)
  {
    assert errors + [] == errors;
  }

  // The structural part of the errors: what breaks the chain first, or a wrong root.
  ghost function ChainErrors(h: Sha256, rows: seq<EventRow>, root: string): seq<IntegrityError> {
    if Linked(rows) then When(EventsRoot(h, rows) != root, RootMismatch)
    else match Outcome(h, rows)
      case Err(ParentChain(i)) => [ParentBroken(i)]
      case Err(Sequence(i)) => [SequenceBroken(i)]
      case _ => []
  }

  lemma StructureErrorsAre(h: Sha256, errors: seq<IntegrityError>, rows: seq<EventRow>, root: string)
    ensures StructureErrors(errors, Outcome(h, rows), root) == errors + ChainErrors(h, rows, root)
  {
    OutcomeCharacterized(h, rows);
    match Outcome(h, rows)
    case Err(f) => FailureIsFirstBreak(h, rows, f);
    case Ok(recomputed) => AddIfIs(errors, recomputed != root, RootMismatch);
  }

  lemma SubjectErrorsAre(s: Subject, file: ProofFile)
    ensures var k := FirstIndex(file.events, s.eventId);
      SubjectErrors(s, file) ==
        When(k == |file.events|, EventMissing)
        + When(k < |file.events| && AsciiLower(file.events[k].fileHash) != AsciiLower(s.sha256), HashMismatch)
        + When(file.chainId != s.chainId, ChainMismatch) + When(Rows(file.events).None?, InvalidUuids)
  {
    ParsedAll(file.events);
    var errors := EventErrors(s, file.events);
    AddIfIs(errors, file.chainId != s.chainId, ChainMismatch);
    AddIfIs(AddIf(errors, file.chainId != s.chainId, ChainMismatch), |ParsedRows(file.events)| != |file.events|,
            InvalidUuids);
  }

  // Main result: the errors recorded for a proof, in their order.
  lemma ErrorsAre(h: Sha256, verify: Ed25519, s: Subject, file: ProofFile)
    ensures var k := FirstIndex(file.events, s.eventId);
      Integrity(h, verify, s, file).errors ==
        When(k == |file.events|, EventMissing)
        + When(k < |file.events| && AsciiLower(file.events[k].fileHash) != AsciiLower(s.sha256), HashMismatch)
        + When(file.chainId != s.chainId, ChainMismatch) + When(Rows(file.events).None?, InvalidUuids)
        + ChainErrors(h, ParsedRows(file.events), file.proof.root)
        + When(!VerifyRoot(verify, file.chainId, file.proof.root, file.proof.chainHead, file.proof.signature,
                           file.proof.publicKey), BadSignature)
  {
    var before, rows := SubjectErrors(s, file), ParsedRows(file.events);
    SubjectErrorsAre(s, file);
    StructureErrorsAre(h, before, rows, file.proof.root);
    var signed := VerifyRoot(verify, file.chainId, file.proof.root, file.proof.chainHead, file.proof.signature,
                             file.proof.publicKey);
    AddIfIs(StructureErrors(before, Outcome(h, rows), file.proof.root), !signed, BadSignature);
  }

  // ... and its flags.
  lemma FlagsAre(h: Sha256, verify: Ed25519, s: Subject, file: ProofFile)
    ensures var r, rows := Integrity(h, verify, s, file), ParsedRows(file.events);
      && (r.eventFound <==> exists i | 0 <= i < |file.events| :: file.events[i].eventId == s.eventId)
      && (r.parentChainValid <==> Linked(rows))
      && (r.merkleRootValid <==> Linked(rows) && EventsRoot(h, rows) == file.proof.root)
      && r.recomputedRoot == (if Linked(rows) then Some(EventsRoot(h, rows)) else None)
      && (r.signatureValid <==> VerifyRoot(verify, file.chainId, file.proof.root, file.proof.chainHead,
                                           file.proof.signature, file.proof.publicKey))
  {
    FoundIff(file.events, s.eventId);
    OutcomeCharacterized(h, ParsedRows(file.events));
  }

  // ---------------------------------------------------------------- whose signature

  // The proof is about the record's event.
  ghost predicate Concerns(s: Subject, file: ProofFile) {
    var k := FirstIndex(file.events, s.eventId);
    k < |file.events| && AsciiLower(file.events[k].fileHash) == AsciiLower(s.sha256) && file.chainId == s.chainId
  }

  // What the offline verifier asks for and the evidence check does not.
  ghost predicate Pinned(file: ProofFile, pinnedKey: string) {
    && IsSupported(file.proof.version, file.leafVersion)
    && NormalizeKey(file.proof.publicKey) == NormalizeKey(pinnedKey)
    && |file.events| == file.proof.leavesCount && file.headEventId == file.proof.chainHead
  }

  // A key verifies as it is written exactly if it does in its normal form and has no white space
  // around it.
  lemma KeyAsWritten(verify: Ed25519, chainId: string, root: string, head: string, signature: string, key: string)
    ensures VerifyRoot(verify, chainId, root, head, signature, key) <==>
      VerifyRoot(verify, chainId, root, head, signature, NormalizeKey(key)) && Trim(key) == key
  {
    HexDecodeLower(Trim(key));
    if HexDecode(key).Some? {
      HexDecodeGraphic(key);
      TrimGraphic(key);
    }
  }

  // Main result: valid evidence and an accepted proof differ exactly by what the pinned key adds.
  lemma EvidenceAgainstPinnedKey(h: Sha256, verify: Ed25519, pinnedKey: string, s: Subject, file: ProofFile)
    ensures ValidEvidence(h, verify, s, file) && Pinned(file, pinnedKey) <==>
      Accepts(h, verify, pinnedKey, file) && Concerns(s, file) && Trim(file.proof.publicKey) == file.proof.publicKey
  {
    KeyAsWritten(verify, file.chainId, file.proof.root, file.proof.chainHead, file.proof.signature,
                 file.proof.publicKey);
  }

  lemma FirstIndexIs(leaves: seq<EventLeaf>, eventId: string, k: nat)
    requires k < |leaves| && leaves[k].eventId == eventId && forall i | 0 <= i < k :: leaves[i].eventId != eventId
    ensures FirstIndex(leaves, eventId) == k
  {
    assert FirstIndex(leaves, eventId) <= k;
  }

  lemma LeafFound(events: seq<EventRow>, k: nat)
    requires k < |events| && forall i | 0 <= i < k :: events[i].eventId != events[k].eventId
    ensures FirstIndex(LeavesOf(events), UuidText(events[k].eventId)) == k
  {
    forall i | 0 <= i < k ensures LeavesOf(events)[i].eventId != UuidText(events[k].eventId) {
      if UuidText(events[i].eventId) == UuidText(events[k].eventId) {
        UuidTextInjective(events[i].eventId, events[k].eventId);
      }
    }
    FirstIndexIs(LeavesOf(events), UuidText(events[k].eventId), k);
  }

  // Main result: any key certifies. A chain that anyone has made up and signed is valid evidence for
  // each of its events, and with any time stamp the record becomes certified; the offline verifier
  // accepts the same file exactly if the signer's key is the pinned one.
  lemma AnyoneCertifies(h: Sha256, verify: Ed25519, signer: ServerSigner, chain: Uuid, events: seq<EventRow>, k: nat,
                        tsa: TsaData, pinnedKey: string)
    requires Honest(signer, verify) && Linked(events) && k < |events|
    requires forall i | 0 <= i < k :: events[i].eventId != events[k].eventId
    requires tsa.timestamp.Some? || (tsa.tokenBytes.Some? && tsa.tokenBytes.value > 0)
    ensures var s := Subject(UuidText(events[k].eventId), UuidText(chain), events[k].fileHash);
      var file := ExportProof(h, signer, chain, events);
      && ValidEvidence(h, verify, s, file)
      && Derived(h, verify, s, EvidenceProof(file, Some(tsa))) == Certified
      && (Accepts(h, verify, pinnedKey, file) <==> HexEncode(signer.publicKey) == NormalizeKey(pinnedKey))
  {
    var s := Subject(UuidText(events[k].eventId), UuidText(chain), events[k].fileHash);
    var file := ExportProof(h, signer, chain, events);
    var own := HexEncode(signer.publicKey);
    LeafFound(events, k);
    ExportIsAccepted(h, verify, signer, chain, events);
    HexIsGraphic(signer.publicKey);
    TrimGraphic(own);
    assert Concerns(s, file);
    EvidenceAgainstPinnedKey(h, verify, own, s, file);
    EvidenceAgainstPinnedKey(h, verify, pinnedKey, s, file);
    PrintedKeyIsNormal(signer.publicKey);
    CertifiedProof(h, verify, s, EvidenceProof(file, Some(tsa)));
  }

  // ---------------------------------------------------------------- the lifecycle

  function ClassifyTsa(tsa: Option<TsaData>): TsaStatus {
    match tsa
    case None => Absent
    case Some(t) => if (t.tokenBytes.Some? && t.tokenBytes.value > 0) || t.timestamp.Some? then Confirmed else Pending
  }

  // Does the proof carry a time stamp: a time, or a token that is not empty?
  ghost predicate HasStamp(tsa: Option<TsaData>) {
    tsa.Some? && (tsa.value.timestamp.Some? || (tsa.value.tokenBytes.Some? && tsa.value.tokenBytes.value > 0))
  }

  function InitialLifecycle(tsa: TsaStatus): LifecycleStatus {
    if tsa.Confirmed? then TsaConfirmed else Registered
  }

  function DeriveLifecycle(r: IntegrityResult, tsa: TsaStatus): (d: LifecycleStatus)
    ensures !d.Revoked? && !d.Created?
    ensures d.Certified? <==> r.IsValid() && tsa.Confirmed?
    ensures d.TsaConfirmed? <==>
      tsa.Confirmed? && !r.IsValid() && r.eventFound && r.parentChainValid && r.merkleRootValid && r.signatureValid
  {
    if !r.eventFound || !r.parentChainValid || !r.merkleRootValid then Registered
    else if !r.signatureValid then Registered
    else match tsa
      case Confirmed => if r.IsValid() then Certified else TsaConfirmed
      case _ => Registered
  }

  function Rank(s: LifecycleStatus): nat {
    match s
    case Created => 0
    case Registered => 1
    case TsaConfirmed => 2
    case Certified => 3
    case Revoked => 255
  }

  function Advance(current: LifecycleStatus, derived: LifecycleStatus): LifecycleStatus {
    if current.Revoked? then Revoked
    else if Rank(derived) >= Rank(current) then derived
    else current
  }

  function Derived(h: Sha256, verify: Ed25519, s: Subject, proof: EvidenceProof): LifecycleStatus {
    DeriveLifecycle(Integrity(h, verify, s, proof.file), ClassifyTsa(proof.tsa))
  }

  // The four checks that a time-stamped proof must pass to be more than registered.
  ghost predicate ChecksPass(h: Sha256, verify: Ed25519, s: Subject, file: ProofFile) {
    && (exists i | 0 <= i < |file.events| :: file.events[i].eventId == s.eventId)
    && Linked(ParsedRows(file.events)) && EventsRoot(h, ParsedRows(file.events)) == file.proof.root
    && VerifyRoot(verify, file.chainId, file.proof.root, file.proof.chainHead, file.proof.signature,
                  file.proof.publicKey)
  }

  // The status after one refresh: revoked and certified stay; valid evidence with a time stamp
  // certifies, a time stamp on checks that pass confirms, and everything else is registered.
  lemma RefreshedIs(h: Sha256, verify: Ed25519, s: Subject, current: LifecycleStatus, proof: EvidenceProof)
    ensures Advance(current, Derived(h, verify, s, proof)) ==
      if current.Revoked? || current.Certified? then current
      else if ValidEvidence(h, verify, s, proof.file) && HasStamp(proof.tsa) then Certified
      else if current.TsaConfirmed? || (ChecksPass(h, verify, s, proof.file) && HasStamp(proof.tsa)) then TsaConfirmed
      else Registered
  {
    ValidIffNoErrors(h, verify, s, proof.file);
    OutcomeCharacterized(h, ParsedRows(proof.file.events));
    FoundIff(proof.file.events, s.eventId);
  }

  // An on-disk record; refreshing changes the two status fields only.
  class EvidenceRecord {
    const subject: Subject
    var lifecycle: LifecycleStatus
    var tsaStatus: TsaStatus

    // build_registered_record
    constructor (subject: Subject, tsa: Option<TsaData>)
      ensures this.subject == subject
      ensures tsaStatus ==
        if tsa.None? then Absent
        else if tsa.value.timestamp.Some? || (tsa.value.tokenBytes.Some? && tsa.value.tokenBytes.value > 0)
        then Confirmed else Pending
      ensures lifecycle == if HasStamp(tsa) then TsaConfirmed else Registered
    {
      this.subject := subject;
      tsaStatus := ClassifyTsa(tsa);
      lifecycle := InitialLifecycle(ClassifyTsa(tsa));
    }

    method RefreshLifecycle(h: Sha256, verify: Ed25519, proof: EvidenceProof)
      modifies this
      ensures var tsa := proof.tsa;
        tsaStatus ==
          if tsa.None? then Absent
          else if tsa.value.timestamp.Some? || (tsa.value.tokenBytes.Some? && tsa.value.tokenBytes.value > 0)
          then Confirmed else Pending
      ensures lifecycle == Advance(old(lifecycle), Derived(h, verify, subject, proof))
      ensures old(lifecycle).Revoked? || old(lifecycle).Certified? ==> lifecycle == old(lifecycle)
      ensures !old(lifecycle).Revoked? && !old(lifecycle).Certified? ==>
        (lifecycle.Certified? <==> ValidEvidence(h, verify, subject, proof.file) && HasStamp(proof.tsa))
    {
      RefreshedIs(h, verify, subject, lifecycle, proof);
      var integrity := VerifyEvidenceIntegrity(h, verify, subject, proof.file);
      tsaStatus := ClassifyTsa(proof.tsa);
      lifecycle := Advance(lifecycle, DeriveLifecycle(integrity, tsaStatus));
    }

    // verify_event_evidence after both files were read: the record is rewritten on success only.
    method VerifyEventEvidence(h: Sha256, verify: Ed25519, proof: EvidenceProof) returns (passed: bool)
      modifies this
      ensures passed <==> ValidEvidence(h, verify, subject, proof.file)
      ensures !passed ==> lifecycle == old(lifecycle) && tsaStatus == old(tsaStatus)
      ensures passed ==>
        tsaStatus == if proof.tsa.None? then Absent else if HasStamp(proof.tsa) then Confirmed else Pending
      ensures passed ==>
        lifecycle ==
          if old(lifecycle).Revoked? || old(lifecycle).Certified? then old(lifecycle)
          else if HasStamp(proof.tsa) then Certified
          else if old(lifecycle).TsaConfirmed? then TsaConfirmed
          else Registered
    {
      ValidIffNoErrors(h, verify, subject, proof.file);
      RefreshedIs(h, verify, subject, lifecycle, proof);
      var integrity := VerifyEvidenceIntegrity(h, verify, subject, proof.file);
      passed := integrity.IsValid();
      if passed {
        RefreshLifecycle(h, verify, proof);
      }
    }

    // Any run of refreshes, in the given order.
    method RefreshAll(h: Sha256, verify: Ed25519, proofs: seq<EvidenceProof>)
      modifies this
      ensures lifecycle == AdvanceAll(old(lifecycle), DerivedAll(h, verify, subject, proofs))
      ensures proofs == [] ==> tsaStatus == old(tsaStatus)
      ensures proofs != [] ==>
        var tsa := proofs[|proofs| - 1].tsa;
        tsaStatus == if tsa.None? then Absent else if HasStamp(tsa) then Confirmed else Pending
    {
      ghost var ds := DerivedAll(h, verify, subject, proofs);
      for i := 0 to |proofs|
        invariant lifecycle == AdvanceAll(old(lifecycle), ds[..i])
        invariant tsaStatus == if i == 0 then old(tsaStatus) else ClassifyTsa(proofs[i - 1].tsa)
      {
        AdvanceNext(old(lifecycle), ds, i);
        RefreshLifecycle(h, verify, proofs[i]);
      }
      assert ds[..|proofs|] == ds;
    }
  }

  function DerivedAll(h: Sha256, verify: Ed25519, s: Subject, proofs: seq<EvidenceProof>): (ds: seq<LifecycleStatus>)
    ensures |ds| == |proofs| && forall i | 0 <= i < |ds| :: ds[i] == Derived(h, verify, s, proofs[i])
  {
    seq(|proofs|, i requires 0 <= i < |proofs| => Derived(h, verify, s, proofs[i]))
  }

  lemma AdvanceNext(start: LifecycleStatus, ds: seq<LifecycleStatus>, i: nat)
    requires i < |ds|
    ensures AdvanceAll(start, ds[..i + 1]) == Advance(AdvanceAll(start, ds[..i]), ds[i])
  {
    assert ds[..i + 1][..i] == ds[..i];
  }

  // The lifecycle after a run of refreshes that derive these statuses.
  function AdvanceAll(start: LifecycleStatus, ds: seq<LifecycleStatus>): LifecycleStatus {
    if ds == [] then start else Advance(AdvanceAll(start, ds[..|ds| - 1]), ds[|ds| - 1])
  }

  // Main result: the lifecycle after any run is the maximum of the start and the derived statuses.
  lemma {:induction false} RunIsMaximum(start: LifecycleStatus, ds: seq<LifecycleStatus>)
    requires !start.Revoked? && Revoked !in ds
    ensures var end := AdvanceAll(start, ds);
      && !end.Revoked?
      && (end == start || end in ds)
      && Rank(start) <= Rank(end)
      && forall d | d in ds :: Rank(d) <= Rank(end)
    decreases |ds|
  {
    if ds != [] {
      var init, last := ds[..|ds| - 1], ds[|ds| - 1];
      assert ds == init + [last];
      RunIsMaximum(start, init);
    }
  }

  // ... written out: certified before time-stamped before registered.
  lemma RunEndsIn(start: LifecycleStatus, ds: seq<LifecycleStatus>)
    requires !start.Revoked? && Revoked !in ds
    ensures AdvanceAll(start, ds) ==
      if start.Certified? || Certified in ds then Certified
      else if start.TsaConfirmed? || TsaConfirmed in ds then TsaConfirmed
      else if start.Registered? || Registered in ds then Registered
      else Created
  {
    RunIsMaximum(start, ds);
  }

  lemma RankInjective(a: LifecycleStatus, b: LifecycleStatus)
    requires Rank(a) == Rank(b)
    ensures a == b
  {
  }

  // So neither the order of the refreshes nor repeating them matters.
  lemma RunOrderIrrelevant(start: LifecycleStatus, ds: seq<LifecycleStatus>, es: seq<LifecycleStatus>)
    requires Revoked !in ds && forall d :: d in ds <==> d in es
    ensures AdvanceAll(start, ds) == AdvanceAll(start, es)
  {
    if start.Revoked? {
      RevokedIsSticky(ds);
      RevokedIsSticky(es);
    } else {
      RunIsMaximum(start, ds);
      RunIsMaximum(start, es);
      RankInjective(AdvanceAll(start, ds), AdvanceAll(start, es));
    }
  }

  lemma {:induction false} RevokedIsSticky(ds: seq<LifecycleStatus>)
    ensures AdvanceAll(Revoked, ds) == Revoked
    decreases |ds|
  {
    if ds != [] { RevokedIsSticky(ds[..|ds| - 1]); }
  }

  // Valid evidence certifies with a confirmed time stamp and registers without one; nothing else
  // certifies.
  lemma CertifiedProof(h: Sha256, verify: Ed25519, s: Subject, proof: EvidenceProof)
    ensures Integrity(h, verify, s, proof.file).IsValid() <==> ValidEvidence(h, verify, s, proof.file)
    ensures ValidEvidence(h, verify, s, proof.file) ==>
      Derived(h, verify, s, proof) == if HasStamp(proof.tsa) then Certified else Registered
    ensures !ValidEvidence(h, verify, s, proof.file) ==> !Derived(h, verify, s, proof).Certified?
  {
    ValidIffNoErrors(h, verify, s, proof.file);
  }

  lemma CertifiedRun(start: LifecycleStatus, ds: seq<LifecycleStatus>)
    requires !start.Revoked? && !start.Certified? && Revoked !in ds
    ensures AdvanceAll(start, ds).Certified? <==> Certified in ds
  {
    RunIsMaximum(start, ds);
  }

  ghost predicate Certifies(h: Sha256, verify: Ed25519, s: Subject, proof: EvidenceProof) {
    ValidEvidence(h, verify, s, proof.file) && HasStamp(proof.tsa)
  }

  lemma DerivedCertified(h: Sha256, verify: Ed25519, s: Subject, proofs: seq<EvidenceProof>)
    ensures Certified in DerivedAll(h, verify, s, proofs) <==> exists p | p in proofs :: Certifies(h, verify, s, p)
  {
    var ds := DerivedAll(h, verify, s, proofs);
    forall i | 0 <= i < |proofs| ensures ds[i] == Certified <==> Certifies(h, verify, s, proofs[i]) {
      CertifiedProof(h, verify, s, proofs[i]);
    }
  }

  // A record not yet certified becomes certified exactly when some proof of the run certifies it,
  // that is, is valid evidence with a confirmed time stamp.
  lemma CertifiedIff(h: Sha256, verify: Ed25519, s: Subject, start: LifecycleStatus, proofs: seq<EvidenceProof>)
    requires !start.Revoked? && !start.Certified?
    ensures AdvanceAll(start, DerivedAll(h, verify, s, proofs)).Certified? <==>
      exists p | p in proofs :: Certifies(h, verify, s, p)
  {
    CertifiedRun(start, DerivedAll(h, verify, s, proofs));
    DerivedCertified(h, verify, s, proofs);
  }
}
