/** The public proof registry (src/public_proof.rs): two tables that must stay matched. */
module PublicProofs {
  import opened Text
  import opened Uuids

  // A row of public_proof_materialization and one of public_proof_registry. A registry row is
  // named by its public id; its constant columns are left out.
  datatype Mat = Mat(hash: string, publicId: Option<string>, at: Time, sticky: bool)
  datatype Pub = Pub(hash: string, tsaClass: string, enabled: bool)
  datatype Registry = Registry(pubs: map<string, Pub>, mats: map<Uuid, Mat>)

  predicate IsActive(r: Registry, hash: string, p: string) {
    p in r.pubs && r.pubs[p].hash == hash && r.pubs[p].enabled
  }

  predicate HasActive(r: Registry, hash: string) {
    exists p | p in r.pubs :: IsActive(r, hash, p)
  }

  predicate IsCandidate(r: Registry, hash: string, m: Uuid) {
    m in r.mats && r.mats[m].hash == hash && !r.mats[m].sticky
  }

  predicate HasCandidate(r: Registry, hash: string) {
    exists m | m in r.mats :: IsCandidate(r, hash, m)
  }

  // ORDER BY materialized_at LIMIT 1; the order of equal times is the database's choice.
  predicate IsEarliest(r: Registry, hash: string, m: Uuid) {
    IsCandidate(r, hash, m) && forall n | n in r.mats && IsCandidate(r, hash, n) :: r.mats[m].at <= r.mats[n].at
  }

  // ---------------------------------------------------------------- what the tables promise

  // Each public id on a materialization names a row of the same hash, enabled exactly if the
  // materialization is not sticky; without a public id it is not sticky.
  ghost predicate Points(r: Registry) {
    forall m | m in r.mats ::
      if r.mats[m].publicId.Some? then
        && r.mats[m].publicId.value in r.pubs && r.pubs[r.mats[m].publicId.value].hash == r.mats[m].hash
        && (r.pubs[r.mats[m].publicId.value].enabled <==> !r.mats[m].sticky)
      else !r.mats[m].sticky
  }

  ghost predicate PointsTo(r: Registry, m: Uuid, p: string) {
    m in r.mats && r.mats[m].publicId == Some(p)
  }

  // Each registry row is named by exactly one materialization.
  ghost predicate OneToOne(r: Registry) {
    && (forall p | p in r.pubs :: exists m :: PointsTo(r, m, p))
    && (forall m, n | m in r.mats && n in r.mats && m != n && r.mats[m].publicId.Some? ::
          r.mats[m].publicId != r.mats[n].publicId)
  }

  // At most one enabled row for each hash: the partial unique index.
  ghost predicate OneActive(r: Registry) {
    forall p, q | p in r.pubs && q in r.pubs && r.pubs[p].enabled && r.pubs[q].enabled
                  && r.pubs[p].hash == r.pubs[q].hash :: p == q
  }

  ghost predicate Matched(r: Registry) {
    Points(r) && OneToOne(r) && OneActive(r)
  }

  // The registry shows a hash exactly if something of it is not disabled.
  ghost predicate Shown(r: Registry, hash: string) {
    HasActive(r, hash) <==> HasCandidate(r, hash)
  }

  // ---------------------------------------------------------------- writes

  function Materialize(r: Registry, proof: Uuid, hash: string, at: Time): Registry {
    if proof in r.mats then r else r.(mats := r.mats[proof := Mat(hash, None, at, false)])
  }

  function Publish(r: Registry, m: Uuid, hash: string, tsaClass: string, newId: string): Registry
    requires m in r.mats
  {
    Registry(r.pubs[newId := Pub(hash, tsaClass, true)], r.mats[m := r.mats[m].(publicId := Some(newId))])
  }

  // Both UPDATE statements of a disable.
  function Disable(r: Registry, p: string): Registry {
    Registry(if p in r.pubs then r.pubs[p := r.pubs[p].(enabled := false)] else r.pubs,
             map m | m in r.mats :: if r.mats[m].publicId == Some(p) then r.mats[m].(sticky := true) else r.mats[m])
  }

  lemma MaterializeKeeps(r: Registry, proof: Uuid, hash: string, at: Time)
    requires Matched(r)
    ensures Matched(Materialize(r, proof, hash, at))
  {
    var after := Materialize(r, proof, hash, at);
    forall p | p in after.pubs ensures exists m :: PointsTo(after, m, p) {
      var m :| PointsTo(r, m, p);
      assert PointsTo(after, m, p);
    }
  }

  lemma DisableKeepsPoints(r: Registry, p: string)
    requires Points(r)
    ensures Points(Disable(r, p))
  {
  }

  lemma DisableKeepsOneToOne(r: Registry, p: string)
    requires OneToOne(r)
    ensures OneToOne(Disable(r, p))
  {
    var after := Disable(r, p);
    assert after.pubs.Keys == r.pubs.Keys;
    forall q | q in after.pubs ensures exists m :: PointsTo(after, m, q) {
      var m :| PointsTo(r, m, q);
      assert PointsTo(after, m, q);
    }
  }

  lemma DisableKeeps(r: Registry, p: string)
    requires Matched(r)
    ensures Matched(Disable(r, p))
  {
    DisableKeepsPoints(r, p);
    DisableKeepsOneToOne(r, p);
  }

  // A candidate of a hash with no enabled row has no public id yet.
  lemma CandidateIsNew(r: Registry, hash: string, m: Uuid)
    requires Matched(r) && !HasActive(r, hash) && IsCandidate(r, hash, m)
    ensures r.mats[m].publicId.None?
  {
    if r.mats[m].publicId.Some? { assert IsActive(r, hash, r.mats[m].publicId.value); }
  }

  lemma PublishKeepsOneToOne(r: Registry, m: Uuid, hash: string, tsaClass: string, newId: string)
    requires Points(r) && OneToOne(r) && newId !in r.pubs && m in r.mats && r.mats[m].publicId.None?
    ensures OneToOne(Publish(r, m, hash, tsaClass, newId))
  {
    var after := Publish(r, m, hash, tsaClass, newId);
    forall p | p in after.pubs ensures exists n :: PointsTo(after, n, p) {
      if p == newId {
        assert PointsTo(after, m, p);
      } else {
        var n :| PointsTo(r, n, p);
        assert PointsTo(after, n, p);
      }
    }
  }

  lemma PublishKeepsOneActive(r: Registry, m: Uuid, hash: string, tsaClass: string, newId: string)
    requires OneActive(r) && !HasActive(r, hash) && m in r.mats
    ensures OneActive(Publish(r, m, hash, tsaClass, newId)) && HasActive(Publish(r, m, hash, tsaClass, newId), hash)
  {
    assert forall p | p in r.pubs :: !IsActive(r, hash, p);
    assert IsActive(Publish(r, m, hash, tsaClass, newId), hash, newId);
  }

  lemma PublishPoints(r: Registry, m: Uuid, hash: string, tsaClass: string, newId: string)
    requires Matched(r) && !HasActive(r, hash) && newId !in r.pubs && IsCandidate(r, hash, m)
    ensures Matched(Publish(r, m, hash, tsaClass, newId)) && HasActive(Publish(r, m, hash, tsaClass, newId), hash)
  {
    CandidateIsNew(r, hash, m);
    PublishKeepsOneToOne(r, m, hash, tsaClass, newId);
    PublishKeepsOneActive(r, m, hash, tsaClass, newId);
  }

  // Main result: writing a public id keeps the tables matched exactly if the materialization is
  // still not disabled when it is written.
  lemma PublishKeepsIff(r: Registry, m: Uuid, hash: string, tsaClass: string, newId: string)
    requires Matched(r) && !HasActive(r, hash) && newId !in r.pubs && m in r.mats && r.mats[m].hash == hash
    ensures Matched(Publish(r, m, hash, tsaClass, newId)) <==> IsCandidate(r, hash, m)
  {
    var after := Publish(r, m, hash, tsaClass, newId);
    if r.mats[m].sticky {
      assert after.mats[m].publicId == Some(newId) && after.pubs[newId].enabled && after.mats[m].sticky;
    } else {
      PublishPoints(r, m, hash, tsaClass, newId);
    }
  }

  // ---------------------------------------------------------------- whole calls

  // sync_canonical_public_proof_in_tx alone: `wrote` tells whether a row was published.
  ghost predicate IsSync(r: Registry, hash: string, tsaClass: string, newId: string, after: Registry) {
    if HasActive(r, hash) || !HasCandidate(r, hash) || newId in r.pubs then after == r
    else exists m | IsEarliest(r, hash, m) :: after == Publish(r, m, hash, tsaClass, newId)
  }

  // on_proof_anchored alone; a public id that is already taken rolls everything back.
  ghost predicate IsAnchor(r: Registry, proof: Uuid, hash: string, at: Time, tsaClass: string, newId: string,
                           after: Registry) {
    var added := Materialize(r, proof, hash, at);
    if !HasActive(r, hash) && HasCandidate(added, hash) && newId in r.pubs then after == r
    else IsSync(added, hash, tsaClass, newId, after)
  }

  ghost predicate IsDisable(r: Registry, hash: string, after: Registry) {
    if HasActive(r, hash) then exists p | IsActive(r, hash, p) :: after == Disable(r, p) else after == r
  }

  lemma MatchedShowsOnlyCandidates(r: Registry, hash: string)
    requires Matched(r) && HasActive(r, hash)
    ensures HasCandidate(r, hash)
  {
    var p :| p in r.pubs && IsActive(r, hash, p);
    var m :| PointsTo(r, m, p);
    assert IsCandidate(r, hash, m);
  }

  lemma SyncKeeps(r: Registry, hash: string, tsaClass: string, newId: string, after: Registry)
    requires Matched(r) && IsSync(r, hash, tsaClass, newId, after)
    ensures Matched(after) && (newId !in r.pubs ==> Shown(after, hash))
  {
    if HasActive(r, hash) {
      MatchedShowsOnlyCandidates(r, hash);
    } else if HasCandidate(r, hash) && newId !in r.pubs {
      var m :| IsEarliest(r, hash, m) && after == Publish(r, m, hash, tsaClass, newId);
      PublishPoints(r, m, hash, tsaClass, newId);
      MatchedShowsOnlyCandidates(after, hash);
    }
  }

  datatype Operation =
    | Anchored(proof: Uuid, fileHash: string, at: Time, tsaClass: string, newId: string)
    | Synced(fileHash: string, tsaClass: string, newId: string)
    | Disabled(fileHash: string)
  {
    function Hash(): string { NormalizeHash(fileHash) }
  }

  // trim().to_ascii_lowercase()
  function NormalizeHash(fileHash: string): string {
    AsciiLower(Trim(fileHash))
  }

  ghost predicate Performs(r: Registry, op: Operation, after: Registry) {
    match op
    case Anchored(proof, _, at, tsaClass, newId) => IsAnchor(r, proof, op.Hash(), at, tsaClass, newId, after)
    case Synced(_, tsaClass, newId) => IsSync(r, op.Hash(), tsaClass, newId, after)
    case Disabled(_) => IsDisable(r, op.Hash(), after)
  }

  // Main result: every call that runs alone keeps the tables matched, and after an anchor or a
  // sync with a new public id the hash has an enabled row exactly if it has a materialization that
  // is not disabled.
  lemma OperationKeeps(r: Registry, op: Operation, after: Registry)
    requires Matched(r) && Performs(r, op, after)
    ensures Matched(after)
    ensures !op.Disabled? && op.newId !in r.pubs ==> Shown(after, op.Hash())
  {
    match op
    case Anchored(proof, _, at, tsaClass, newId) =>
      var added := Materialize(r, proof, op.Hash(), at);
      MaterializeKeeps(r, proof, op.Hash(), at);
      if after != r || newId !in r.pubs { SyncKeeps(added, op.Hash(), tsaClass, newId, after); }
    case Synced(_, tsaClass, newId) => SyncKeeps(r, op.Hash(), tsaClass, newId, after);
    case Disabled(_) =>
      if HasActive(r, op.Hash()) {
        var p :| IsActive(r, op.Hash(), p) && after == Disable(r, p);
        DisableKeeps(r, p);
      }
  }

  // Every history of calls, one after the other.
  ghost predicate IsHistory(states: seq<Registry>, ops: seq<Operation>) {
    |states| == |ops| + 1 && forall i | 0 <= i < |ops| :: Performs(states[i], ops[i], states[i + 1])
  }

  lemma {:induction false} HistoryKeeps(states: seq<Registry>, ops: seq<Operation>, n: nat)
    requires IsHistory(states, ops) && Matched(states[0]) && n < |states|
    ensures Matched(states[n])
    decreases n
  {
    if n > 0 {
      HistoryKeeps(states, ops, n - 1);
      OperationKeeps(states[n - 1], ops[n - 1], states[n]);
    }
  }

  // A proof materialized for a hash that is shown is not shown itself: its row has no public id
  // until the shown one is disabled and the hash synced again.
  lemma SecondProofWaits(r: Registry, proof: Uuid, hash: string, at: Time, tsaClass: string, newId: string,
                         after: Registry)
    requires Matched(r) && HasActive(r, hash) && proof !in r.mats
    requires IsAnchor(r, proof, hash, at, tsaClass, newId, after)
    ensures after.pubs == r.pubs && proof in after.mats && after.mats[proof].publicId.None?
    ensures forall p, d | IsActive(after, hash, p) && d == Disable(after, p) ::
      IsCandidate(d, hash, proof) && !HasActive(d, hash)
  {
    forall p, d | IsActive(after, hash, p) && d == Disable(after, p)
      ensures IsCandidate(d, hash, proof) && !HasActive(d, hash)
    {
      assert forall q | q in r.pubs && IsActive(r, hash, q) :: q == p;
    }
  }

  // ---------------------------------------------------------------- the code

  lemma {:induction false} EarliestExists(r: Registry, hash: string, among: set<Uuid>) returns (m: Uuid)
    requires among <= r.mats.Keys && exists n | n in among :: IsCandidate(r, hash, n)
    ensures m in among && IsCandidate(r, hash, m)
    ensures forall n | n in among && IsCandidate(r, hash, n) :: r.mats[m].at <= r.mats[n].at
    decreases |among|
  {
    m :| m in among && IsCandidate(r, hash, m);
    var rest := among - {m};
    if exists n | n in rest :: IsCandidate(r, hash, n) {
      var best := EarliestExists(r, hash, rest);
      if r.mats[best].at < r.mats[m].at { m := best; }
    }
  }

  class PublicRegistry {
    var pubs: map<string, Pub>
    var mats: map<Uuid, Mat>

    function Contents(): Registry reads this { Registry(pubs, mats) }

    // Returns false if the insert violated a unique index, which leaves only a rollback.
    method SyncInTx(hash: string, tsaClass: string, newId: string) returns (alive: bool)
      modifies this
      ensures alive <==> HasActive(old(Contents()), hash) || !HasCandidate(old(Contents()), hash) || newId !in old(pubs)
      ensures IsSync(old(Contents()), hash, tsaClass, newId, Contents())
    {
      if HasActive(Contents(), hash) { return true; }
      if !HasCandidate(Contents(), hash) { return true; }
      if newId in pubs { return false; }
      ghost var first := EarliestExists(Contents(), hash, mats.Keys);
      assert IsEarliest(Contents(), hash, first);
      var candidate :| candidate in mats && IsEarliest(Contents(), hash, candidate);
      pubs := pubs[newId := Pub(hash, tsaClass, true)];
      mats := mats[candidate := mats[candidate].(publicId := Some(newId))];
      return true;
    }

    method OnProofAnchored(proof: Uuid, fileHash: string, at: Time, tsaClass: string, newId: string)
      modifies this
      ensures Performs(old(Contents()), Anchored(proof, fileHash, at, tsaClass, newId), Contents())
    {
      var hash := NormalizeHash(fileHash);
      var begun := Contents();
      if proof !in mats {
        mats := mats[proof := Mat(hash, None, at, false)];
      }
      assert Contents() == Materialize(begun, proof, hash, at);
      assert HasActive(Contents(), hash) == HasActive(begun, hash);
      var alive := SyncInTx(hash, tsaClass, newId);
      if !alive {
        mats := begun.mats;
      }
    }

    method SyncCanonical(fileHash: string, tsaClass: string, newId: string)
      modifies this
      ensures Performs(old(Contents()), Synced(fileHash, tsaClass, newId), Contents())
    {
      var alive := SyncInTx(NormalizeHash(fileHash), tsaClass, newId);
    }

    method DisableCanonical(fileHash: string)
      modifies this
      ensures Performs(old(Contents()), Disabled(fileHash), Contents())
    {
      var hash := NormalizeHash(fileHash);
      if HasActive(Contents(), hash) {
        var p :| p in pubs && IsActive(Contents(), hash, p);
        ghost var begun := Contents();
        pubs := pubs[p := pubs[p].(enabled := false)];
        mats := map m | m in mats :: if mats[m].publicId == Some(p) then mats[m].(sticky := true) else mats[m];
        assert Contents() == Disable(begun, p);
      }
    }
  }
}
