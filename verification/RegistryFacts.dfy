/** What the calls of the public registry do, said of its rows alone. */
module RegistryFacts {
  import opened Text
  import opened Uuids
  import opened TextFacts
  import opened PublicProofs
  import opened PublicProofRuns

  // A hash is stored without the white space around it and in small letters.
  lemma HashIs(fileHash: string) returns (a: string, t: string, b: string)
    ensures fileHash == a + (t + b) && AllWhite(a) && AllWhite(b)
    ensures forall k | 0 < k <= |t| :: !AllWhite(t[..k])
    ensures forall k | 0 <= k < |t| :: !AllWhite(t[k..])
    ensures |NormalizeHash(fileHash)| == |t|
    ensures forall i | 0 <= i < |t| ::
      NormalizeHash(fileHash)[i] == if 'A' <= t[i] <= 'Z' then 'a' + (t[i] - 'A') else t[i]
  {
    a, b := TrimIs(fileHash);
    t := Trim(fileHash);
    LowerTextIs(t);
  }

  // ---------------------------------------------------------------- calls alone

  // A new enabled row for the hash, named by the earliest of its materializations that are not
  // disabled; nothing else changes.
  ghost predicate ShowsEarliest(pubs: map<string, Pub>, mats: map<Uuid, Mat>, hash: string, tsaClass: string,
                                newId: string, m: Uuid, after: Registry) {
    && m in mats && mats[m].hash == hash && !mats[m].sticky
    && (forall n | n in mats && mats[n].hash == hash && !mats[n].sticky :: mats[m].at <= mats[n].at)
    && after.pubs == pubs[newId := Pub(hash, tsaClass, true)]
    && after.mats == mats[m := Mat(hash, Some(newId), mats[m].at, false)]
  }

  lemma SyncIs(r: Registry, hash: string, tsaClass: string, newId: string, after: Registry) returns (m: Uuid)
    requires IsSync(r, hash, tsaClass, newId, after)
    ensures after == r <==>
      || (exists p | p in r.pubs :: r.pubs[p].hash == hash && r.pubs[p].enabled)
      || (forall n | n in r.mats :: r.mats[n].hash == hash ==> r.mats[n].sticky)
      || newId in r.pubs
    ensures after != r ==> ShowsEarliest(r.pubs, r.mats, hash, tsaClass, newId, m, after)
  {
    m := 0;
    assert HasActive(r, hash) <==> exists p | p in r.pubs :: r.pubs[p].hash == hash && r.pubs[p].enabled;
    assert HasCandidate(r, hash) <==> !forall n | n in r.mats :: r.mats[n].hash == hash ==> r.mats[n].sticky by {
      if HasCandidate(r, hash) { var n :| n in r.mats && IsCandidate(r, hash, n); }
    }
    if !(HasActive(r, hash) || !HasCandidate(r, hash) || newId in r.pubs) {
      m :| IsEarliest(r, hash, m) && after == Publish(r, m, hash, tsaClass, newId);
      assert IsCandidate(r, hash, m);
      forall n | n in r.mats && r.mats[n].hash == hash && !r.mats[n].sticky ensures r.mats[m].at <= r.mats[n].at {
        assert IsCandidate(r, hash, n);
      }
    }
  }

  // Main result: a sync shows the earliest materialization of the normalized hash that is not
  // disabled, unless the hash is shown, none is left, or the public id is taken.
  lemma SyncedIs(r: Registry, fileHash: string, tsaClass: string, newId: string, after: Registry) returns (m: Uuid)
    requires Performs(r, Synced(fileHash, tsaClass, newId), after)
    ensures var hash := NormalizeHash(fileHash);
      if (exists p | p in r.pubs :: r.pubs[p].hash == hash && r.pubs[p].enabled)
         || (forall n | n in r.mats :: r.mats[n].hash == hash ==> r.mats[n].sticky)
         || newId in r.pubs
      then after == r else ShowsEarliest(r.pubs, r.mats, hash, tsaClass, newId, m, after)
  {
    m := SyncIs(r, NormalizeHash(fileHash), tsaClass, newId, after);
  }

  // Main result: an anchor adds the proof's materialization, if it has none, and shows the earliest
  // one as a sync does; if the public id is taken then, the materialization is not added either.
  lemma AnchoredIs(r: Registry, proof: Uuid, fileHash: string, at: Time, tsaClass: string, newId: string,
                   after: Registry) returns (m: Uuid)
    requires Performs(r, Anchored(proof, fileHash, at, tsaClass, newId), after)
    ensures var hash := NormalizeHash(fileHash);
      var mats := if proof in r.mats then r.mats else r.mats[proof := Mat(hash, None, at, false)];
      if exists p | p in r.pubs :: r.pubs[p].hash == hash && r.pubs[p].enabled then
        after == Registry(r.pubs, mats)
      else if newId in r.pubs || forall n | n in mats :: mats[n].hash == hash ==> mats[n].sticky then after == r
      else ShowsEarliest(r.pubs, mats, hash, tsaClass, newId, m, after)
  {
    var hash := NormalizeHash(fileHash);
    var added := Materialize(r, proof, hash, at);
    m := 0;
    assert HasActive(r, hash) <==> exists p | p in r.pubs :: r.pubs[p].hash == hash && r.pubs[p].enabled;
    if proof !in r.mats { assert added.mats[proof] == Mat(hash, None, at, false); }
    if !(!HasActive(r, hash) && HasCandidate(added, hash) && newId in r.pubs) {
      m := SyncIs(added, hash, tsaClass, newId, after);
      if newId in r.pubs && !HasActive(r, hash) && proof !in r.mats { assert IsCandidate(added, hash, proof); }
    }
  }

  // Main result: a disable turns off the row that shows the hash and marks the materializations that
  // name it, and does nothing if there is no such row.
  lemma DisabledIs(r: Registry, fileHash: string, after: Registry) returns (p: string)
    requires Performs(r, Disabled(fileHash), after)
    ensures var hash := NormalizeHash(fileHash);
      if forall q | q in r.pubs :: r.pubs[q].hash == hash ==> !r.pubs[q].enabled then after == r
      else
        && p in r.pubs && r.pubs[p].hash == hash && r.pubs[p].enabled
        && after.pubs == r.pubs[p := Pub(hash, r.pubs[p].tsaClass, false)]
        && after.mats.Keys == r.mats.Keys
        && forall m | m in r.mats ::
             after.mats[m] == if r.mats[m].publicId == Some(p) then Mat(r.mats[m].hash, Some(p), r.mats[m].at, true)
                              else r.mats[m]
  {
    var hash := NormalizeHash(fileHash);
    p := "";
    if HasActive(r, hash) {
      p :| IsActive(r, hash, p) && after == Disable(r, p);
    }
  }

  // ---------------------------------------------------------------- calls as statements

  ghost predicate Does(r: Registry, call: Call, newId: string, after: Registry) {
    match call
    case AnchorCall(proof, hash, at, tsaClass) => IsAnchor(r, proof, hash, at, tsaClass, newId, after)
    case SyncCall(hash, tsaClass) => IsSync(r, hash, tsaClass, newId, after)
    case DisableCall(hash) => IsDisable(r, hash, after)
  }

  // What a call that runs alone knows.
  ghost predicate Knows(r: Registry, t: Tx) {
    && (t.next == INSERT ==> t == NewTx(t.call))
    && (INSERT < t.next < ENDED ==>
          t.own == if t.call.AnchorCall? && t.call.proof !in r.mats then Some(Mat(t.call.hash, None, t.call.at, false))
                   else None)
    && (t.next == READ_CANDIDATE || t.next == WRITE ==>
          if t.active.Some? then IsActive(r, t.call.hash, t.active.value) else !HasActive(r, t.call.hash))
    && (t.next == READ_CANDIDATE ==> t.active.None? && !t.call.DisableCall?)
    && (t.next == WRITE && t.active.None? && !t.call.DisableCall? ==>
          if t.candidate.Some? then IsEarliest(View(r, t), t.call.hash, t.candidate.value)
          else !HasCandidate(View(r, t), t.call.hash))
  }

  lemma ActKnows(r: Registry, t: Tx, input: Input)
    requires Knows(r, t) && t.next < WRITE && Returns(r, t, input)
    ensures Knows(r, Act(r, t, input))
  {
    assert View(r, Act(r, t, input)) == View(r, t) || t.next == INSERT;
  }

  lemma ViewOfAnchor(r: Registry, t: Tx)
    requires Knows(r, t) && t.next == WRITE
    ensures t.call.AnchorCall? ==> View(r, t) == Materialize(r, t.call.proof, t.call.hash, t.call.at)
    ensures !t.call.AnchorCall? ==> View(r, t) == r
    ensures HasActive(View(r, t), t.call.hash) == HasActive(r, t.call.hash)
  {
    assert forall p :: IsActive(View(r, t), t.call.hash, p) == IsActive(r, t.call.hash, p);
  }

  lemma WriteDoes(r: Registry, t: Tx, newId: string)
    requires Knows(r, t) && t.next == WRITE
    ensures Does(r, t.call, newId, Write(r, t, newId))
  {
    ViewOfAnchor(r, t);
    if t.candidate.Some? && t.active.None? && !t.call.DisableCall? {
      assert IsCandidate(View(r, t), t.call.hash, t.candidate.value);
    }
  }

  ghost predicate OnlyAdvances(actions: seq<Action>, id: nat) {
    forall i | 0 < i < |actions| :: actions[i].Advance? && actions[i].id == id
  }

  lemma {:induction false} AloneKnows(r: Registry, states: seq<State>, actions: seq<Action>, id: nat, call: Call,
                                       n: nat)
    requires IsRun(states, actions) && states[0] == State(r, map[]) && 1 <= n < |states|
    requires actions[0] == Begin(id, call) && OnlyAdvances(actions, id)
    ensures states[n].txs.Keys == {id} && states[n].txs[id].call == call && Knows(r, states[n].txs[id])
    ensures if states[n].txs[id].next != ENDED then states[n].r == r
      else n > 1 && Does(r, call, actions[n - 1].input.newId, states[n].r)
    decreases n
  {
    if n == 1 {
      assert states[1] == Step(states[0], actions[0]);
    } else {
      AloneKnows(r, states, actions, id, call, n - 1);
      var t, input := states[n - 1].txs[id], actions[n - 1].input;
      assert Enabled(states[n - 1], actions[n - 1]) && states[n] == Step(states[n - 1], actions[n - 1]);
      if t.next == WRITE { WriteDoes(r, t, input.newId); } else { ActKnows(r, t, input); }
    }
  }

  // Main result: a call whose statements no other call interrupts does what the call as a whole does.
  lemma StatementsDo(r: Registry, states: seq<State>, actions: seq<Action>, id: nat, call: Call)
    requires IsRun(states, actions) && states[0] == State(r, map[]) && |actions| > 1
    requires actions[0] == Begin(id, call) && OnlyAdvances(actions, id)
    ensures id in states[|actions|].txs
    ensures states[|actions|].txs[id].next == ENDED ==>
      Does(r, call, actions[|actions| - 1].input.newId, states[|actions|].r)
  {
    AloneKnows(r, states, actions, id, call, |actions|);
  }
}
