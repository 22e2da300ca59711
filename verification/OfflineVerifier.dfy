/**
 * The offline verifier `evident-verify` (src/bin/verify.rs) and the proof files it reads
 * (src/service/verification.rs, src/service/ledger.rs).
 */
module OfflineVerifier {
  import opened Text
  import opened Uuids
  import opened Merkle
  import opened Signing
  import opened Structure

  datatype EventLeaf = EventLeaf(sequence: I64, eventId: string, parentId: string, fileHash: string)
  datatype Proof = Proof(version: Option<string>, root: string, chainHead: string,
                         signature: string, publicKey: string, leavesCount: nat)
  datatype ProofFile = ProofFile(leafVersion: Option<string>, chainId: string, headEventId: string,
                                 proof: Proof, events: seq<EventLeaf>)

  // Process exit: 0, 2, 3 and 4.
  datatype Exit = ProofValid | ProofFailed | NoPinnedKey | UnsupportedFormat

  const PROOF_VERSION := "proof_v1"
  const LEAF_VERSION := "leaf_v1"

  predicate IsVersioned(proofVersion: Option<string>, leafVersion: Option<string>) {
    proofVersion.Some? && proofVersion.value != "" && leafVersion.Some? && leafVersion.value != ""
  }

  predicate IsSupported(proofVersion: Option<string>, leafVersion: Option<string>) {
    proofVersion == Some(PROOF_VERSION) && leafVersion == Some(LEAF_VERSION)
  }

  function RowOf(leaf: EventLeaf): Option<EventRow> {
    match (ParseUuid(leaf.eventId), ParseUuid(leaf.parentId))
    case (Some(id), Some(parent)) => Some(EventRow(leaf.sequence, id, parent, leaf.fileHash))
    case _ => None
  }

  // All rows, or None when some UUID does not parse.
  function Rows(leaves: seq<EventLeaf>): (rows: Option<seq<EventRow>>)
    ensures rows.Some? ==> |rows.value| == |leaves|
  {
    if leaves == [] then Some([])
    else match (Rows(leaves[..|leaves| - 1]), RowOf(leaves[|leaves| - 1]))
      case (Some(init), Some(last)) => Some(init + [last])
      case _ => None
  }

  lemma {:induction false} RowsOfPrefix(leaves: seq<EventLeaf>, n: nat)
    requires n <= |leaves| && Rows(leaves[..n]).None?
    ensures Rows(leaves).None?
    decreases |leaves| - n
  {
    if n == |leaves| {
      assert leaves[..n] == leaves;
    } else {
      assert leaves[..n + 1][..n] == leaves[..n];
      RowsOfPrefix(leaves, n + 1);
    }
  }

  lemma RowsNext(leaves: seq<EventLeaf>, n: nat)
    requires n < |leaves| && Rows(leaves[..n]).Some?
    ensures Rows(leaves[..n + 1]) ==
      match RowOf(leaves[n])
      case None => None
      case Some(row) => Some(Rows(leaves[..n]).value + [row])
  {
    assert leaves[..n + 1][..n] == leaves[..n];
  }

  method EventsToRows(leaves: seq<EventLeaf>) returns (rows: Option<seq<EventRow>>)
    ensures rows == Rows(leaves)
  {
    var pushed: seq<EventRow> := [];
    for i := 0 to |leaves|
      invariant Rows(leaves[..i]) == Some(pushed)
    {
      RowsNext(leaves, i);
      match RowOf(leaves[i]) {
        case None =>
          RowsOfPrefix(leaves, i + 1);
          return None;
        case Some(row) => pushed := pushed + [row];
      }
    }
    assert leaves[..|leaves|] == leaves;
    return Some(pushed);
  }

  // What a proof file must satisfy to be reported valid under the pinned key.
  ghost predicate Accepts(h: Sha256, verify: Ed25519, pinnedKey: string, file: ProofFile) {
    && IsSupported(file.proof.version, file.leafVersion)
    && NormalizeKey(file.proof.publicKey) == NormalizeKey(pinnedKey)
    && VerifyRoot(verify, file.chainId, file.proof.root, file.proof.chainHead, file.proof.signature,
                  NormalizeKey(pinnedKey))
    && |file.events| == file.proof.leavesCount
    && file.headEventId == file.proof.chainHead
    && Rows(file.events).Some?
    && Linked(Rows(file.events).value)
    && EventsRoot(h, Rows(file.events).value) == file.proof.root
  }

  method EvidentVerify(h: Sha256, verify: Ed25519, pinnedFile: Option<string>, file: ProofFile) returns (exit: Exit)
    ensures exit.ProofValid? <==> pinnedFile.Some? && Accepts(h, verify, Trim(pinnedFile.value), file)
    ensures exit.UnsupportedFormat? <==> !IsSupported(file.proof.version, file.leafVersion)
    ensures exit.NoPinnedKey? <==> !exit.UnsupportedFormat? && pinnedFile.None?
  {
    if !(IsVersioned(file.proof.version, file.leafVersion) && IsSupported(file.proof.version, file.leafVersion)) {
      return UnsupportedFormat;
    }
    var ok := true;
    if pinnedFile.None? {
      return NoPinnedKey;
    }
    match ClassifySignature(verify, file.proof.publicKey, Trim(pinnedFile.value), file.chainId,
                            file.proof.root, file.proof.chainHead, file.proof.signature) {
      case Valid =>
      case UntrustedSignerIdentity(_, _) => ok := false;
      case SignatureInvalid(_) => ok := false;
    }
    if |file.events| != file.proof.leavesCount {
      ok := false;
    }
    if file.headEventId != file.proof.chainHead {
      ok := false;
    }
    var rows := EventsToRows(file.events);
    if rows.None? {
      return ProofFailed;
    }
    var structure := CheckEventStructure(h, rows.value);
    OutcomeCharacterized(h, rows.value);
    match structure {
      case Ok(recomputed) =>
        if recomputed != file.proof.root {
          ok := false;
        }
      case Err(_) => ok := false;
    }
    exit := if ok then ProofValid else ProofFailed;
  }

  // ---------------------------------------------------------------- soundness

  type SignedLog = set<(Uuid, seq<EventRow>)>

  // The key verifies nothing but the messages signed for the chains of the log: the ideal
  // signature, with the honest signer's history as its only source of signatures.
  ghost predicate SignedOnly(h: Sha256, verify: Ed25519, key: string, log: SignedLog) {
    forall m, sig | verify(key, m, sig) :: exists entry | entry in log :: SignedMessage(h, entry.0, entry.1) == Some(m)
  }

  // The message signed for a chain; nothing is signed for an empty or ill-numbered one.
  ghost function SignedMessage(h: Sha256, chain: Uuid, events: seq<EventRow>): Option<string> {
    if events == [] || !Numbered(events) then None
    else Some(Message(UuidText(chain), EventsRoot(h, events), UuidText(events[|events| - 1].eventId)))
  }

  lemma DigestHasNoColon(d: string)
    requires IsDigest(d)
    ensures ':' !in d
  {
  }

  // A signed message gives back the fields it was signed for, whatever strings a file puts there.
  lemma SignedMessageFields(h: Sha256, chain: Uuid, events: seq<EventRow>, a: string, b: string, c: string)
    requires SignedMessage(h, chain, events) == Some(Message(a, b, c))
    ensures events != [] && Numbered(events)
    ensures a == UuidText(chain) && b == EventsRoot(h, events) && c == UuidText(events[|events| - 1].eventId)
  {
    var last := events[|events| - 1].eventId;
    UuidRoundTrip(chain);
    UuidRoundTrip(last);
    RootNotEmpty(h, events);
    DigestHasNoColon(EventsRoot(h, events));
    MessageBindsFields(a, b, c, UuidText(chain), EventsRoot(h, events), UuidText(last));
  }

  // Main result: a proof accepted under the pinned key shows exactly the events of a chain that
  // key signed, and its head is that chain's last event although no check compares the two.
  lemma AcceptedProofIsSigned(h: Sha256, verify: Ed25519, pinnedKey: string, file: ProofFile, log: SignedLog)
      returns (chain: Uuid, events: seq<EventRow>)
    requires Accepts(h, verify, pinnedKey, file)
    requires SignedOnly(h, verify, HexDecode(NormalizeKey(pinnedKey)).value, log)
    requires forall entry | entry in log :: CollisionFree(h, Inputs(h, entry.1) + Inputs(h, Rows(file.events).value))
    ensures (chain, events) in log
    ensures Rows(file.events) == Some(events) && events != []
    ensures file.chainId == UuidText(chain)
    ensures file.headEventId == UuidText(events[|events| - 1].eventId)
  {
    chain, events := SignerOf(h, verify, pinnedKey, file, log);
    RootNotEmpty(h, events);
    var rows := Rows(file.events).value;
    assert rows != [] && Numbered(rows);
    assert (chain, events) in log;
    RootBindsEvents(h, events, rows);
  }

  // Whose chain, root and head an accepted proof carries.
  lemma SignerOf(h: Sha256, verify: Ed25519, pinnedKey: string, file: ProofFile, log: SignedLog)
      returns (chain: Uuid, events: seq<EventRow>)
    requires Accepts(h, verify, pinnedKey, file)
    requires SignedOnly(h, verify, HexDecode(NormalizeKey(pinnedKey)).value, log)
    ensures (chain, events) in log && events != [] && Numbered(events)
    ensures file.chainId == UuidText(chain) && file.proof.root == EventsRoot(h, events)
    ensures file.proof.chainHead == UuidText(events[|events| - 1].eventId)
  {
    var key, sig := HexDecode(NormalizeKey(pinnedKey)).value, HexDecode(file.proof.signature).value;
    var m := Message(file.chainId, file.proof.root, file.proof.chainHead);
    assert verify(key, m, sig);
    var entry :| entry in log && SignedMessage(h, entry.0, entry.1) == Some(m);
    chain, events := entry.0, entry.1;
    SignedMessageFields(h, chain, events, file.chainId, file.proof.root, file.proof.chainHead);
  }

  // ---------------------------------------------------------------- the files the server writes

  function LeafOf(e: EventRow): EventLeaf {
    EventLeaf(e.sequence, UuidText(e.eventId), UuidText(e.parentId), e.fileHash)
  }

  function LeavesOf(events: seq<EventRow>): (ls: seq<EventLeaf>)
    ensures |ls| == |events|
  {
    seq(|events|, i requires 0 <= i < |events| => LeafOf(events[i]))
  }

  lemma LeafRoundTrip(e: EventRow)
    ensures RowOf(LeafOf(e)) == Some(e)
  {
    UuidRoundTrip(e.eventId);
    UuidRoundTrip(e.parentId);
  }

  lemma LeavesOfAll(init: seq<EventRow>, last: EventRow)
    ensures LeavesOf(init + [last]) == LeavesOf(init) + [LeafOf(last)]
    ensures LeavesOf(init + [last])[..|init|] == LeavesOf(init)
  {
  }

  lemma {:induction false} RowsRoundTrip(events: seq<EventRow>)
    ensures Rows(LeavesOf(events)) == Some(events)
  {
    if events != [] {
      var init, last := events[..|events| - 1], events[|events| - 1];
      assert events == init + [last];
      RowsRoundTrip(init);
      LeavesOfAll(init, last);
      LeafRoundTrip(last);
    }
  }

  // The response of an append: root, head and signature belong to the chain as it was committed
  // (`signed`), the listed events to the chain as it was read again afterwards (`current`).
  ghost function AppendResponse(h: Sha256, signer: ServerSigner, chain: Uuid,
                                signed: seq<EventRow>, current: seq<EventRow>): ProofFile
    requires signed != []
  {
    var head := UuidText(signed[|signed| - 1].eventId);
    var signature :=
      if IsBytes(signer.sign(Message(UuidText(chain), EventsRoot(h, signed), head)))
      then SignRoot(signer, UuidText(chain), EventsRoot(h, signed), head) else "";
    var publicKey := if IsBytes(signer.publicKey) then HexEncode(signer.publicKey) else "";
    ProofFile(Some(LEAF_VERSION), UuidText(chain), head,
              Proof(Some(PROOF_VERSION), EventsRoot(h, signed), head, signature, publicKey, |current|),
              LeavesOf(current))
  }

  // export_proof reads the chain once.
  ghost function ExportProof(h: Sha256, signer: ServerSigner, chain: Uuid, events: seq<EventRow>): ProofFile
    requires events != []
  {
    AppendResponse(h, signer, chain, events, events)
  }

  lemma ExportIsAccepted(h: Sha256, verify: Ed25519, signer: ServerSigner, chain: Uuid, events: seq<EventRow>)
    requires Honest(signer, verify) && events != [] && Linked(events)
    ensures Accepts(h, verify, Trim(HexEncode(signer.publicKey) + "\n"), ExportProof(h, signer, chain, events))
  {
    var head := UuidText(events[|events| - 1].eventId);
    RowsRoundTrip(events);
    HexIsGraphic(signer.publicKey);
    TrimGraphic(HexEncode(signer.publicKey));
    PrintedKeyIsNormal(signer.publicKey);
    SignedRootVerifies(signer, verify, UuidText(chain), EventsRoot(h, events), head);
  }

  // Main result: an append response passes the offline verifier if and only if nothing was
  // appended to the chain between the commit and the second read.
  lemma ResponseAcceptedIff(h: Sha256, verify: Ed25519, signer: ServerSigner, chain: Uuid,
                            signed: seq<EventRow>, current: seq<EventRow>)
    requires Honest(signer, verify) && signed != [] && Linked(signed) && Linked(current) && signed <= current
    requires CollisionFree(h, Inputs(h, signed) + Inputs(h, current))
    ensures Accepts(h, verify, Trim(HexEncode(signer.publicKey) + "\n"),
                    AppendResponse(h, signer, chain, signed, current))
      <==> current == signed
  {
    RowsRoundTrip(current);
    if current == signed {
      ExportIsAccepted(h, verify, signer, chain, signed);
    } else if EventsRoot(h, current) == EventsRoot(h, signed) {
      RootBindsEvents(h, signed, current);
    }
  }

  // Cut back to the events up to its own sequence number, every append response passes.
  lemma ResponsePrefixAccepted(h: Sha256, verify: Ed25519, signer: ServerSigner, chain: Uuid,
                               signed: seq<EventRow>, current: seq<EventRow>)
    requires Honest(signer, verify) && signed != [] && Linked(signed) && signed <= current
    ensures var file := AppendResponse(h, signer, chain, signed, current);
      Accepts(h, verify, Trim(HexEncode(signer.publicKey) + "\n"),
              file.(events := file.events[..|signed|], proof := file.proof.(leavesCount := |signed|)))
  {
    assert LeavesOf(current)[..|signed|] == LeavesOf(signed);
    ExportIsAccepted(h, verify, signer, chain, signed);
  }
}
