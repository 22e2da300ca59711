/** What the offline verifier accepts, said of the texts in the proof file and in the key file. */
module VerifierFacts {
  import opened Text
  import opened Uuids
  import opened Merkle
  import opened Signing
  import opened Structure
  import opened OfflineVerifier
  import opened TextFacts

  lemma DecodedIsBytes(s: string)
    ensures HexDecode(s).Some? ==> IsBytes(HexDecode(s).value)
  {
    HexDecodeLength(s);
  }

  // A key's normal form is the encoding of the bytes it spells.
  lemma NormalizedSpelling(key: string, bytes: string)
    requires IsBytes(bytes)
    ensures NormalizeKey(key) == HexEncode(bytes) <==> HexDecode(Trim(key)) == Some(bytes)
  {
    HexSpelling(Trim(key), bytes);
  }

  lemma SameKey(k: string, p: string)
    requires HexDecode(Trim(k)).Some? && HexDecode(Trim(k)) == HexDecode(Trim(p))
    ensures NormalizeKey(k) == NormalizeKey(p)
  {
    var bytes := HexDecode(Trim(k)).value;
    DecodedIsBytes(Trim(k));
    NormalizedSpelling(k, bytes);
    NormalizedSpelling(p, bytes);
  }

  lemma TrimDecoded(k: string)
    requires HexDecode(Trim(k)).Some?
    ensures Trim(Trim(k)) == Trim(k)
  {
    HexDecodeGraphic(Trim(k));
    TrimGraphic(Trim(k));
  }

  // Main result: two key files that spell the same bytes, in letters of any case and between any
  // white space, accept the same proof files.
  lemma SpellingIrrelevant(h: Sha256, verify: Ed25519, k: string, p: string, file: ProofFile)
    requires HexDecode(Trim(k)).Some? && HexDecode(Trim(k)) == HexDecode(Trim(p))
    ensures Accepts(h, verify, k, file) <==> Accepts(h, verify, p, file)
    ensures Accepts(h, verify, Trim(k), file) <==> Accepts(h, verify, Trim(p), file)
  {
    TrimDecoded(k);
    TrimDecoded(p);
    SameKey(k, p);
    SameKey(Trim(k), Trim(p));
  }

  // Main result: an export is accepted under exactly those key files that spell the signer's key.
  lemma ExportAcceptedIff(h: Sha256, verify: Ed25519, signer: ServerSigner, chain: Uuid, events: seq<EventRow>,
                          keyFile: string)
    requires Honest(signer, verify) && events != [] && Linked(events)
    ensures Accepts(h, verify, Trim(keyFile), ExportProof(h, signer, chain, events)) <==>
      HexDecode(Trim(keyFile)) == Some(signer.publicKey)
  {
    var key, printed := signer.publicKey, HexEncode(signer.publicKey);
    var file := ExportProof(h, signer, chain, events);
    ExportIsAccepted(h, verify, signer, chain, events);
    HexRoundTrip(key);
    HexIsGraphic(key);
    TrimGraphic(printed);
    if HexDecode(Trim(keyFile)) == Some(key) {
      SpellingIrrelevant(h, verify, keyFile, printed, file);
    } else if Accepts(h, verify, Trim(keyFile), file) {
      PrintedKeyIsNormal(key);
      NormalizedSpelling(Trim(keyFile), key);
      TrimTwice(keyFile, key);
    }
  }

  lemma TrimTwice(k: string, bytes: string)
    requires HexDecode(Trim(Trim(k))) == Some(bytes)
    ensures HexDecode(Trim(k)) == Some(bytes)
  {
    TrimIdempotent(k);
  }

  lemma VerifiesIff(verify: Ed25519, chainId: string, root: string, head: string, signature: string, key: string)
    ensures VerifyRoot(verify, chainId, root, head, signature, NormalizeKey(key)) <==>
      && HexDecode(Trim(key)).Some? && HexDecode(signature).Some?
      && |HexDecode(Trim(key)).value| == 32 && |HexDecode(signature).value| == 64
      && verify(HexDecode(Trim(key)).value, chainId + ":" + root + ":" + head, HexDecode(signature).value)
  {
    HexDecodeLower(Trim(key));
  }

  lemma SameKeyIff(k: string, p: string)
    ensures HexDecode(Trim(p)).Some? ==>
      (NormalizeKey(k) == NormalizeKey(p) <==> HexDecode(Trim(k)) == HexDecode(Trim(p)))
  {
    HexDecodeLower(Trim(k));
    HexDecodeLower(Trim(p));
    if HexDecode(Trim(k)).Some? && HexDecode(Trim(k)) == HexDecode(Trim(p)) { SameKey(k, p); }
  }

  // Main result: what a proof file must say to be accepted. The signature is over chain, root and
  // head with colons between, under the key that both files spell.
  lemma AcceptsIff(h: Sha256, verify: Ed25519, pinnedKey: string, file: ProofFile)
    ensures Accepts(h, verify, pinnedKey, file) <==>
      && file.proof.version == Some("proof_v1") && file.leafVersion == Some("leaf_v1")
      && HexDecode(Trim(pinnedKey)).Some? && HexDecode(Trim(file.proof.publicKey)) == HexDecode(Trim(pinnedKey))
      && HexDecode(file.proof.signature).Some?
      && (var key, sig := HexDecode(Trim(pinnedKey)).value, HexDecode(file.proof.signature).value;
          && |key| == 32 && |sig| == 64
          && verify(key, file.chainId + ":" + file.proof.root + ":" + file.proof.chainHead, sig))
      && |file.events| == file.proof.leavesCount && file.headEventId == file.proof.chainHead
      && Rows(file.events).Some? && Linked(Rows(file.events).value)
      && EventsRoot(h, Rows(file.events).value) == file.proof.root
  {
    VerifiesIff(verify, file.chainId, file.proof.root, file.proof.chainHead, file.proof.signature, pinnedKey);
    SameKeyIff(file.proof.publicKey, pinnedKey);
  }

  // How a signature is classified: the keys are compared and reported trimmed and in small letters.
  lemma ClassificationIs(verify: Ed25519, proofKey: string, pinnedKey: string, chainId: string, root: string,
                         head: string, signature: string)
    ensures var r := ClassifySignature(verify, proofKey, pinnedKey, chainId, root, head, signature);
      var proof, pinned := AsciiLower(Trim(proofKey)), AsciiLower(Trim(pinnedKey));
      && (r == UntrustedSignerIdentity(pinned, proof) <==> pinned != proof)
      && (r == Valid <==>
            && pinned == proof && HexDecode(Trim(pinnedKey)).Some? && HexDecode(signature).Some?
            && |HexDecode(Trim(pinnedKey)).value| == 32 && |HexDecode(signature).value| == 64
            && verify(HexDecode(Trim(pinnedKey)).value, chainId + ":" + root + ":" + head, HexDecode(signature).value))
      && (r == SignatureInvalid(pinned) <==> pinned == proof && r != Valid)
  {
    VerifiesIff(verify, chainId, root, head, signature, pinnedKey);
  }

  // The row that a leaf's texts stand for.
  predicate Spells(leaf: EventLeaf, row: EventRow) {
    && row.sequence == leaf.sequence && row.fileHash == leaf.fileHash
    && ParseUuid(leaf.eventId) == Some(row.eventId) && ParseUuid(leaf.parentId) == Some(row.parentId)
  }

  predicate SpellAll(leaves: seq<EventLeaf>, rows: seq<EventRow>) {
    |leaves| == |rows| && forall i | 0 <= i < |leaves| :: Spells(leaves[i], rows[i])
  }

  lemma SpellAllLast(leaves: seq<EventLeaf>, rows: seq<EventRow>, n: nat)
    requires |leaves| == |rows| == n + 1
    ensures SpellAll(leaves, rows) <==> SpellAll(leaves[..n], rows[..n]) && Spells(leaves[n], rows[n])
  {
    assert forall i | 0 <= i < n :: leaves[..n][i] == leaves[i] && rows[..n][i] == rows[i];
  }

  // The events of a file are read exactly as their texts spell them.
  lemma {:induction false} RowsIff(leaves: seq<EventLeaf>, rows: seq<EventRow>)
    ensures Rows(leaves) == Some(rows) <==> SpellAll(leaves, rows)
    decreases |leaves|
  {
    if leaves == [] {
      assert Rows(leaves) == Some([]);
    } else if |rows| == |leaves| {
      var n := |leaves| - 1;
      RowsIff(leaves[..n], rows[..n]);
      SpellAllLast(leaves, rows, n);
      RowIff(leaves[n], rows[n]);
      LastRow(leaves, rows);
    }
  }

  lemma RowIff(leaf: EventLeaf, row: EventRow)
    ensures RowOf(leaf) == Some(row) <==> Spells(leaf, row)
  {
  }

  lemma LastRow(leaves: seq<EventLeaf>, rows: seq<EventRow>)
    requires leaves != [] && |rows| == |leaves|
    ensures var n := |leaves| - 1;
      Rows(leaves) == Some(rows) <==> Rows(leaves[..n]) == Some(rows[..n]) && RowOf(leaves[n]) == Some(rows[n])
  {
    var n := |leaves| - 1;
    assert rows == rows[..n] + [rows[n]];
    match (Rows(leaves[..n]), RowOf(leaves[n]))
    case (Some(init), Some(last)) => assert (init + [last])[..n] == init && (init + [last])[n] == last;
    case _ =>
  }
}
