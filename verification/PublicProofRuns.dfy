/**
 * Registry calls that run at the same time, one statement at a time. The writes of a call are
 * taken together with its commit: the unique keys and row locks they take leave no one else a
 * chance in between.
 */
module PublicProofRuns {
  import opened Text
  import opened Uuids
  import opened PublicProofs

  // Hashes are normalized before the call begins its transaction.
  datatype Call =
    | AnchorCall(proof: Uuid, hash: string, at: Time, tsaClass: string)
    | SyncCall(hash: string, tsaClass: string)
    | DisableCall(hash: string)

  type Statement = n: nat | n <= ENDED
  const INSERT := 0
  const READ_ACTIVE := 1
  const READ_CANDIDATE := 2
  const WRITE := 3
  const ENDED := 4

  // `own` is the materialization the call has inserted, `active` the enabled row and `candidate`
  // the materialization it has read.
  datatype Tx = Tx(call: Call, next: Statement, own: Option<Mat>, active: Option<string>, candidate: Option<Uuid>)
  {
    predicate Inserted(proof: Uuid) { next < ENDED && own.Some? && call.AnchorCall? && call.proof == proof }
    // A sync locks the row it has found.
    predicate Locks(p: string) { next == WRITE && !call.DisableCall? && active == Some(p) }
    predicate Publishes() { next == WRITE && !call.DisableCall? && active.None? && candidate.Some? }
  }

  function NewTx(call: Call): Tx {
    Tx(call, if call.AnchorCall? then INSERT else READ_ACTIVE, None, None, None)
  }

  // The tables with the call's own insert.
  function View(r: Registry, t: Tx): Registry {
    if t.own.Some? && t.call.AnchorCall? then r.(mats := r.mats[t.call.proof := t.own.value]) else r
  }

  // What the call's SELECTs return and which public id it draws.
  datatype Input = Input(active: Option<string>, candidate: Option<Uuid>, newId: string)

  ghost predicate Returns(r: Registry, t: Tx, input: Input) {
    && (t.next == READ_ACTIVE ==>
          if input.active.Some? then IsActive(r, t.call.hash, input.active.value) else !HasActive(r, t.call.hash))
    && (t.next == READ_CANDIDATE ==>
          if input.candidate.Some? then IsEarliest(View(r, t), t.call.hash, input.candidate.value)
          else !HasCandidate(View(r, t), t.call.hash))
  }

  function Act(r: Registry, t: Tx, input: Input): Tx {
    if t.next == INSERT then
      t.(next := READ_ACTIVE,
         own := if t.call.AnchorCall? && t.call.proof !in r.mats
                then Some(Mat(t.call.hash, None, t.call.at, false)) else None)
    else if t.next == READ_ACTIVE then
      t.(active := input.active, next := if input.active.Some? || t.call.DisableCall? then WRITE else READ_CANDIDATE)
    else if t.next == READ_CANDIDATE then t.(candidate := input.candidate, next := WRITE)
    else t.(next := ENDED)
  }

  // The tables after the call's writes and its commit. A violated unique index, on the public id
  // or on the enabled row of the hash, leaves a transaction whose COMMIT rolls back.
  function Write(r: Registry, t: Tx, newId: string): Registry {
    if t.call.DisableCall? then (if t.active.Some? then Disable(r, t.active.value) else r)
    else if t.active.Some? || t.candidate.None? then View(r, t)
    else if HasActive(r, t.call.hash) || newId in r.pubs || t.candidate.value !in View(r, t).mats then r
    else Publish(View(r, t), t.candidate.value, t.call.hash, t.call.tsaClass, newId)
  }

  datatype State = State(r: Registry, txs: map<nat, Tx>)

  predicate WaitsFor(t: Tx, u: Tx) {
    || (t.next == INSERT && t.call.AnchorCall? && u.Inserted(t.call.proof))
    || (t.next == WRITE && t.call.DisableCall? && t.active.Some? && u.Locks(t.active.value))
  }

  datatype Action = Begin(id: nat, call: Call) | Advance(id: nat, input: Input) | Fault(id: nat)

  ghost predicate Enabled(s: State, a: Action) {
    match a
    case Begin(id, _) => id !in s.txs
    case Fault(id) => id in s.txs && s.txs[id].next != ENDED
    case Advance(id, input) =>
      && id in s.txs && s.txs[id].next != ENDED && Returns(s.r, s.txs[id], input)
      && forall u | u in s.txs && u != id :: !WaitsFor(s.txs[id], s.txs[u])
  }

  function Step(s: State, a: Action): State
    requires !a.Begin? ==> a.id in s.txs
  {
    match a
    case Begin(id, call) => s.(txs := s.txs[id := NewTx(call)])
    case Fault(id) => s.(txs := s.txs[id := s.txs[id].(next := ENDED)])
    case Advance(id, input) =>
      var t := s.txs[id];
      State(if t.next == WRITE then Write(s.r, t, input.newId) else s.r, s.txs[id := Act(s.r, t, input)])
  }

  ghost predicate IsRun(states: seq<State>, actions: seq<Action>) {
    && |states| == |actions| + 1
    && forall i | 0 <= i < |actions| :: Enabled(states[i], actions[i]) && states[i + 1] == Step(states[i], actions[i])
  }

  // ---------------------------------------------------------------- every interleaving

  ghost predicate TxOk(r: Registry, t: Tx) {
    t.next < ENDED ==>
      && (t.own.Some? ==> t.call.AnchorCall? && t.call.proof !in r.mats
                           && t.own.value == Mat(t.call.hash, None, t.call.at, false))
      && (t.next <= READ_CANDIDATE ==> t.candidate.None?)
      && (t.candidate.Some? ==> t.candidate.value in View(r, t).mats
                                 && View(r, t).mats[t.candidate.value].hash == t.call.hash)
  }

  ghost predicate TxsOk(r: Registry, txs: map<nat, Tx>) {
    && (forall t | t in txs :: TxOk(r, txs[t]))
    && (forall t, u | t in txs && u in txs && t != u && txs[t].call.AnchorCall? && txs[t].Inserted(txs[t].call.proof) ::
          !txs[u].Inserted(txs[t].call.proof))
  }

  // Materializations stay, and stay disabled; enabled rows only get disabled.
  ghost predicate Grows(before: Registry, after: Registry) {
    && (forall m | m in before.mats :: m in after.mats && after.mats[m].hash == before.mats[m].hash
          && (before.mats[m].sticky ==> after.mats[m].sticky))
    && (forall p | p in before.pubs :: p in after.pubs && after.pubs[p].hash == before.pubs[p].hash
          && (after.pubs[p].enabled ==> before.pubs[p].enabled))
  }

  lemma DisableGrows(r: Registry, p: string)
    requires OneActive(r)
    ensures Grows(r, Disable(r, p)) && OneActive(Disable(r, p)) && Disable(r, p).mats.Keys == r.mats.Keys
  {
  }

  lemma PublishGrows(r: Registry, t: Tx, newId: string)
    requires TxOk(r, t) && OneActive(r) && t.Publishes() && !HasActive(r, t.call.hash) && newId !in r.pubs
    ensures t.candidate.value in View(r, t).mats
    ensures var after := Publish(View(r, t), t.candidate.value, t.call.hash, t.call.tsaClass, newId);
      Grows(r, after) && OneActive(after) && after.mats.Keys == View(r, t).mats.Keys
  {
    assert forall p :: IsActive(View(r, t), t.call.hash, p) == IsActive(r, t.call.hash, p);
    PublishKeepsOneActive(View(r, t), t.candidate.value, t.call.hash, t.call.tsaClass, newId);
  }

  lemma ViewGrows(r: Registry, t: Tx)
    requires TxOk(r, t) && t.next < ENDED && OneActive(r)
    ensures Grows(r, View(r, t)) && OneActive(View(r, t)) && Grows(r, r)
    ensures View(r, t).mats.Keys == r.mats.Keys + if t.own.Some? then {t.call.proof} else {}
  {
  }

  lemma WriteGrows(r: Registry, t: Tx, newId: string)
    requires TxOk(r, t) && t.next == WRITE && OneActive(r)
    ensures Grows(r, Write(r, t, newId)) && OneActive(Write(r, t, newId))
    ensures forall m | m in Write(r, t, newId).mats :: m in r.mats || t.Inserted(m)
  {
    ViewGrows(r, t);
    var after := Write(r, t, newId);
    if t.call.DisableCall? && t.active.Some? {
      DisableGrows(r, t.active.value);
    } else if t.Publishes() && !HasActive(r, t.call.hash) && newId !in r.pubs {
      PublishGrows(r, t, newId);
    } else {
      assert after == r || after == View(r, t);
    }
  }

  lemma TxOkGrows(before: Registry, after: Registry, t: Tx)
    requires TxOk(before, t) && Grows(before, after)
    requires t.next < ENDED && t.own.Some? ==> t.call.proof !in after.mats
    ensures TxOk(after, t)
  {
  }

  lemma InsertOk(r: Registry, t: Tx, input: Input)
    requires TxOk(r, t) && t.next == INSERT && t.candidate.None?
    ensures TxOk(r, Act(r, t, input))
  {
  }

  lemma ActOk(r: Registry, t: Tx, input: Input)
    requires TxOk(r, t) && INSERT < t.next < WRITE && Returns(r, t, input)
    ensures TxOk(r, Act(r, t, input))
  {
    assert View(r, Act(r, t, input)) == View(r, t);
  }

  lemma WriteKeepsTxs(s: State, a: Action)
    requires TxsOk(s.r, s.txs) && OneActive(s.r) && a.Advance? && Enabled(s, a) && s.txs[a.id].next == WRITE
    ensures TxsOk(Step(s, a).r, Step(s, a).txs)
  {
    var t, after := s.txs[a.id], Step(s, a);
    WriteGrows(s.r, t, a.input.newId);
    forall u | u in after.txs ensures TxOk(after.r, after.txs[u]) {
      if u != a.id && s.txs[u].next < ENDED {
        assert s.txs[u].own.Some? ==> !t.Inserted(s.txs[u].call.proof);
        TxOkGrows(s.r, after.r, s.txs[u]);
      }
    }
  }

  lemma StatementKeepsTxs(s: State, a: Action)
    requires TxsOk(s.r, s.txs) && a.Advance? && Enabled(s, a) && s.txs[a.id].next < WRITE
    ensures TxsOk(Step(s, a).r, Step(s, a).txs)
  {
    if s.txs[a.id].next == INSERT {
      InsertOk(s.r, s.txs[a.id], a.input);
    } else {
      ActOk(s.r, s.txs[a.id], a.input);
    }
  }

  lemma StepKeeps(s: State, a: Action)
    requires TxsOk(s.r, s.txs) && OneActive(s.r) && Enabled(s, a)
    ensures TxsOk(Step(s, a).r, Step(s, a).txs) && OneActive(Step(s, a).r) && Grows(s.r, Step(s, a).r)
  {
    if a.Advance? && s.txs[a.id].next == WRITE {
      WriteKeepsTxs(s, a);
      WriteGrows(s.r, s.txs[a.id], a.input.newId);
    } else if a.Advance? {
      StatementKeepsTxs(s, a);
    }
  }

  ghost predicate Reachable(start: Registry, states: seq<State>, actions: seq<Action>) {
    OneActive(start) && IsRun(states, actions) && states[0] == State(start, map[])
  }

  lemma ExtendRun(states: seq<State>, actions: seq<Action>, a: Action)
    requires IsRun(states, actions) && Enabled(states[|actions|], a)
    ensures IsRun(states + [Step(states[|actions|], a)], actions + [a])
  {
    var ss, aa := states + [Step(states[|actions|], a)], actions + [a];
    forall i | 0 <= i < |aa| ensures Enabled(ss[i], aa[i]) && ss[i + 1] == Step(ss[i], aa[i]) {
      if i < |actions| { assert aa[i] == actions[i] && ss[i] == states[i] && ss[i + 1] == states[i + 1]; }
    }
  }

  // Main result: in every interleaving a hash has at most one enabled row.
  lemma {:induction false} OneActiveAlways(start: Registry, states: seq<State>, actions: seq<Action>, n: nat)
    requires Reachable(start, states, actions) && n < |states|
    ensures OneActive(states[n].r) && TxsOk(states[n].r, states[n].txs)
    decreases n
  {
    if n > 0 {
      OneActiveAlways(start, states, actions, n - 1);
      StepKeeps(states[n - 1], actions[n - 1]);
    }
  }

  // Main result: in every interleaving no row disappears and nothing disabled is enabled again.
  lemma {:induction false} DisabledForEver(start: Registry, states: seq<State>, actions: seq<Action>, m: nat, n: nat)
    requires Reachable(start, states, actions) && m <= n < |states|
    ensures Grows(states[m].r, states[n].r)
    decreases n
  {
    if m < n {
      DisabledForEver(start, states, actions, m, n - 1);
      OneActiveAlways(start, states, actions, n - 1);
      StepKeeps(states[n - 1], actions[n - 1]);
    }
  }

  // ---------------------------------------------------------------- when the tables stay matched

  // The statement does not write the public id of a materialization that was disabled after the
  // call read it; a call that is going to be rolled back is none.
  ghost predicate NotStale(s: State, a: Action)
    requires !a.Begin? ==> a.id in s.txs
  {
    a.Advance? && s.txs[a.id].Publishes() && !HasActive(s.r, s.txs[a.id].call.hash) && a.input.newId !in s.r.pubs ==>
      IsCandidate(View(s.r, s.txs[a.id]), s.txs[a.id].call.hash, s.txs[a.id].candidate.value)
  }

  lemma ViewKeeps(r: Registry, t: Tx)
    requires Matched(r) && TxOk(r, t) && t.next < ENDED
    ensures Matched(View(r, t)) && View(r, t).pubs == r.pubs
    ensures HasActive(View(r, t), t.call.hash) == HasActive(r, t.call.hash)
  {
    if t.own.Some? {
      MaterializeKeeps(r, t.call.proof, t.call.hash, t.call.at);
      assert View(r, t) == Materialize(r, t.call.proof, t.call.hash, t.call.at);
    }
    assert forall p :: IsActive(View(r, t), t.call.hash, p) == IsActive(r, t.call.hash, p);
  }

  // Main result: a statement keeps the tables matched exactly if it does not use a stale candidate.
  lemma StepKeepsMatchedIff(s: State, a: Action)
    requires Matched(s.r) && TxsOk(s.r, s.txs) && Enabled(s, a)
    ensures Matched(Step(s, a).r) <==> NotStale(s, a)
  {
    if a.Advance? && s.txs[a.id].next == WRITE {
      var t := s.txs[a.id];
      ViewKeeps(s.r, t);
      if t.call.DisableCall? && t.active.Some? {
        DisableKeeps(s.r, t.active.value);
      } else if t.Publishes() && !HasActive(s.r, t.call.hash) && a.input.newId !in s.r.pubs {
        PublishKeepsIff(View(s.r, t), t.candidate.value, t.call.hash, t.call.tsaClass, a.input.newId);
      }
    }
  }

  // A registry row that no materialization names.
  ghost predicate Orphan(r: Registry, p: string) {
    p in r.pubs && forall m | m in r.mats :: r.mats[m].publicId != Some(p)
  }

  lemma OrphanIsUnmatched(r: Registry, p: string)
    requires Orphan(r, p)
    ensures !Matched(r)
  {
    forall m ensures !PointsTo(r, m, p) { }
  }

  // Writing a disabled candidate leaves the row that it named before without a name.
  lemma StalePublishOrphans(r: Registry, m: Uuid, hash: string, tsaClass: string, newId: string)
    requires Matched(r) && newId !in r.pubs && m in r.mats && r.mats[m].sticky
    ensures r.mats[m].publicId.Some? && Orphan(Publish(r, m, hash, tsaClass, newId), r.mats[m].publicId.value)
  {
  }

  lemma StaleStepOrphans(s: State, a: Action) returns (p: string)
    requires Matched(s.r) && TxsOk(s.r, s.txs) && Enabled(s, a) && !NotStale(s, a)
    ensures Orphan(Step(s, a).r, p)
  {
    var t := s.txs[a.id];
    ViewKeeps(s.r, t);
    StalePublishOrphans(View(s.r, t), t.candidate.value, t.call.hash, t.call.tsaClass, a.input.newId);
    p := View(s.r, t).mats[t.candidate.value].publicId.value;
  }

  lemma OrphanStays(s: State, a: Action, p: string)
    requires TxsOk(s.r, s.txs) && Enabled(s, a) && Orphan(s.r, p)
    ensures Orphan(Step(s, a).r, p)
  {
    if a.Advance? && s.txs[a.id].next == WRITE {
      assert TxOk(s.r, s.txs[a.id]);
    }
  }

  // No statement of the first n has used a stale candidate.
  ghost predicate FreshUntil(states: seq<State>, actions: seq<Action>, n: nat)
    requires IsRun(states, actions) && n <= |actions|
  {
    forall i | 0 <= i < n :: NotStale(states[i], actions[i])
  }

  lemma {:induction false} MatchedOrOrphan(start: Registry, states: seq<State>, actions: seq<Action>, n: nat)
      returns (p: string)
    requires Reachable(start, states, actions) && Matched(start) && n < |states|
    ensures if FreshUntil(states, actions, n) then Matched(states[n].r) else Orphan(states[n].r, p)
    decreases n
  {
    p := "";
    if n > 0 {
      var s, a := states[n - 1], actions[n - 1];
      p := MatchedOrOrphan(start, states, actions, n - 1);
      OneActiveAlways(start, states, actions, n - 1);
      assert FreshUntil(states, actions, n) <==> FreshUntil(states, actions, n - 1) && NotStale(s, a);
      if !FreshUntil(states, actions, n - 1) {
        OrphanStays(s, a, p);
      } else if NotStale(s, a) {
        StepKeepsMatchedIff(s, a);
      } else {
        p := StaleStepOrphans(s, a);
      }
    }
  }

  // Main result: in every interleaving the tables are matched if and only if no statement so far
  // has used a stale candidate; what one breaks, nothing repairs.
  lemma MatchedIffFresh(start: Registry, states: seq<State>, actions: seq<Action>, n: nat)
    requires Reachable(start, states, actions) && Matched(start) && n < |states|
    ensures Matched(states[n].r) <==> forall i | 0 <= i < n :: NotStale(states[i], actions[i])
  {
    var p := MatchedOrOrphan(start, states, actions, n);
    if !FreshUntil(states, actions, n) { OrphanIsUnmatched(states[n].r, p); }
  }

  // ---------------------------------------------------------------- what a call leaves shown

  // What a call has read lasts until it writes: the enabled row it found is locked, and a call
  // that found no candidate has inserted none.
  ghost predicate ReadsOk(r: Registry, t: Tx) {
    && (t.next == READ_CANDIDATE ==> t.active.None?)
    && (t.next == WRITE && !t.call.DisableCall? ==>
          && (t.active.Some? ==> IsActive(r, t.call.hash, t.active.value))
          && (t.active.None? && t.candidate.None? ==> t.own.None?))
  }

  lemma ActReadsOk(r: Registry, t: Tx, input: Input)
    requires TxOk(r, t) && ReadsOk(r, t) && t.next < WRITE && Returns(r, t, input)
    ensures ReadsOk(r, Act(r, t, input))
  {
    if t.next == READ_CANDIDATE && t.own.Some? { assert IsCandidate(View(r, t), t.call.hash, t.call.proof); }
  }

  lemma StepKeepsReads(s: State, a: Action, id: nat)
    requires TxsOk(s.r, s.txs) && Enabled(s, a) && id in s.txs && ReadsOk(s.r, s.txs[id])
    ensures id in Step(s, a).txs && ReadsOk(Step(s, a).r, Step(s, a).txs[id])
  {
    if a.Advance? && s.txs[a.id].next < WRITE {
      if a.id == id { ActReadsOk(s.r, s.txs[id], a.input); }
    } else if a.Advance? && a.id != id {
      WriteKeepsReads(s.r, s.txs[a.id], a.input.newId, s.txs[id]);
    }
  }

  lemma WriteKeepsReads(r: Registry, t: Tx, newId: string, u: Tx)
    requires TxOk(r, t) && t.next == WRITE && ReadsOk(r, u) && !WaitsFor(t, u)
    ensures ReadsOk(Write(r, t, newId), u)
  {
  }

  lemma {:induction false} RunKeepsReads(start: Registry, states: seq<State>, actions: seq<Action>, n: nat, id: nat)
    requires Reachable(start, states, actions) && n < |states| && id in states[n].txs
    ensures ReadsOk(states[n].r, states[n].txs[id])
    decreases n
  {
    if n > 0 && id in states[n - 1].txs {
      RunKeepsReads(start, states, actions, n - 1, id);
      OneActiveAlways(start, states, actions, n - 1);
      StepKeepsReads(states[n - 1], actions[n - 1], id);
    } else if n > 0 {
      assert states[n].txs[id] == NewTx(actions[n - 1].call);
    }
  }

  lemma WriteShowsIff(r: Registry, t: Tx, newId: string)
    requires Matched(r) && TxOk(r, t) && ReadsOk(r, t) && t.next == WRITE && !t.call.DisableCall?
    requires Matched(Write(r, t, newId))
    ensures Shown(Write(r, t, newId), t.call.hash) <==>
      || t.active.Some? || HasActive(r, t.call.hash) || (t.candidate.Some? && newId !in r.pubs)
      || !HasCandidate(r, t.call.hash)
  {
    var after, hash := Write(r, t, newId), t.call.hash;
    ViewKeeps(r, t);
    if t.Publishes() && !HasActive(r, hash) && newId !in r.pubs { assert IsActive(after, hash, newId); }
    if HasActive(after, hash) { MatchedShowsOnlyCandidates(after, hash); }
  }

  // Main result: in every run without stale candidates, an anchor or a sync leaves its hash shown
  // exactly if something of it is not disabled, unless the call itself published nothing: it read
  // no candidate, or drew a public id that is taken, while a candidate waits for a row.
  lemma CallShowsIff(start: Registry, states: seq<State>, actions: seq<Action>, n: nat, t: Tx)
    requires Reachable(start, states, actions) && Matched(start) && n < |actions| && actions[n].Advance?
    requires forall i | 0 <= i <= n :: NotStale(states[i], actions[i])
    requires t == states[n].txs[actions[n].id] && t.next == WRITE && !t.call.DisableCall?
    ensures var r, hash := states[n].r, t.call.hash;
      Shown(states[n + 1].r, hash) <==>
        || t.active.Some? || HasActive(r, hash) || (t.candidate.Some? && actions[n].input.newId !in r.pubs)
        || !HasCandidate(r, hash)
  {
    MatchedIffFresh(start, states, actions, n);
    MatchedIffFresh(start, states, actions, n + 1);
    OneActiveAlways(start, states, actions, n);
    RunKeepsReads(start, states, actions, n, actions[n].id);
    WriteShowsIff(states[n].r, t, actions[n].input.newId);
  }

  // ---------------------------------------------------------------- a lost materialization

  // Main result: an anchor that has inserted its materialization loses it at its commit, although
  // nothing is reported, exactly if it publishes and violates a unique index: an enabled row of
  // the hash, or the public id, is there by then.
  lemma AnchorLostIff(start: Registry, states: seq<State>, actions: seq<Action>, n: nat, t: Tx)
    requires Reachable(start, states, actions) && n < |actions| && actions[n].Advance?
    requires t == states[n].txs[actions[n].id] && t.next == WRITE && t.own.Some?
    ensures t.call.AnchorCall? && states[n + 1].txs[actions[n].id].next == ENDED
    ensures t.call.proof !in states[n + 1].r.mats <==>
      t.Publishes() && (HasActive(states[n].r, t.call.hash) || actions[n].input.newId in states[n].r.pubs)
  {
    OneActiveAlways(start, states, actions, n);
    assert TxOk(states[n].r, t);
  }

  ghost predicate NoFault(actions: seq<Action>) {
    forall i | 0 <= i < |actions| :: !actions[i].Fault?
  }

  function AboutToPublish(call: Call, candidate: Uuid): Tx
    requires call.AnchorCall?
  {
    Tx(call, WRITE, Some(Mat(call.hash, None, call.at, false)), None, Some(candidate))
  }

  // An anchor starts, inserts and reads.
  lemma AnchorReads(states: seq<State>, actions: seq<Action>, id: nat, call: Call)
      returns (more: seq<State>, done: seq<Action>, candidate: Uuid)
    requires IsRun(states, actions) && id !in states[|actions|].txs && NoFault(actions)
    requires call.AnchorCall? && call.proof !in states[|actions|].r.mats && !HasActive(states[|actions|].r, call.hash)
    requires forall u | u in states[|actions|].txs :: !states[|actions|].txs[u].Inserted(call.proof)
    ensures IsRun(more, done) && more[0] == states[0] && NoFault(done)
    ensures candidate in View(states[|actions|].r, AboutToPublish(call, candidate)).mats
    ensures more[|done|] ==
      State(states[|actions|].r, states[|actions|].txs[id := AboutToPublish(call, candidate)])
  {
    var s := states[|actions|];
    var view := s.r.(mats := s.r.mats[call.proof := Mat(call.hash, None, call.at, false)]);
    assert IsCandidate(view, call.hash, call.proof);
    candidate := EarliestExists(view, call.hash, view.mats.Keys);
    var a1, a2 := Begin(id, call), Advance(id, Input(None, Some(candidate), ""));
    ExtendRun(states, actions, a1);
    more, done := states + [Step(s, a1)], actions + [a1];
    ExtendRun(more, done, a2);
    more, done := more + [Step(more[|done|], a2)], done + [a2];
    ExtendRun(more, done, a2);
    more, done := more + [Step(more[|done|], a2)], done + [a2];
    ExtendRun(more, done, a2);
    more, done := more + [Step(more[|done|], a2)], done + [a2];
    assert more[|done|].txs == s.txs[id := AboutToPublish(call, candidate)];
  }

  // ... and writes.
  lemma AnchorWrites(states: seq<State>, actions: seq<Action>, id: nat, newId: string)
      returns (more: seq<State>, done: seq<Action>)
    requires IsRun(states, actions) && id in states[|actions|].txs && NoFault(actions)
    requires states[|actions|].txs[id].next == WRITE && states[|actions|].txs[id].call.AnchorCall?
    ensures IsRun(more, done) && more[0] == states[0] && NoFault(done)
    ensures var s := states[|actions|];
      more[|done|] == State(Write(s.r, s.txs[id], newId), s.txs[id := s.txs[id].(next := ENDED)])
  {
    var a := Advance(id, Input(None, None, newId));
    ExtendRun(states, actions, a);
    more, done := states + [Step(states[|actions|], a)], actions + [a];
  }

  // Main result: it does happen. Of two new proofs of one hash that is not shown, anchored at the
  // same time and without a fault, the second one to write is not in the tables afterwards.
  lemma SecondAnchorIsLost(start: Registry, kept: Call, lost: Call, newId: string, otherId: string)
      returns (states: seq<State>, actions: seq<Action>)
    requires OneActive(start) && kept.AnchorCall? && lost.AnchorCall? && kept.hash == lost.hash
    requires kept.proof != lost.proof
    requires kept.proof !in start.mats && lost.proof !in start.mats && !HasActive(start, kept.hash)
    requires newId !in start.pubs
    ensures Reachable(start, states, actions) && NoFault(actions)
    ensures var end := states[|actions|];
      && end.txs.Keys == {1, 2} && end.txs[1].call == kept && end.txs[2].call == lost
      && end.txs[1].next == end.txs[2].next == ENDED
      && kept.proof in end.r.mats && IsActive(end.r, kept.hash, newId) && lost.proof !in end.r.mats
  {
    states, actions := [State(start, map[])], [];
    var c1, c2;
    states, actions, c1 := AnchorReads(states, actions, 1, kept);
    states, actions, c2 := AnchorReads(states, actions, 2, lost);
    states, actions := AnchorWrites(states, actions, 1, newId);
    assert IsActive(states[|actions|].r, kept.hash, newId);
    states, actions := AnchorWrites(states, actions, 2, otherId);
  }

  // ---------------------------------------------------------------- a stale candidate

  lemma SyncReads(states: seq<State>, actions: seq<Action>, id: nat, hash: string, tsaClass: string, m: Uuid)
      returns (more: seq<State>, done: seq<Action>)
    requires IsRun(states, actions) && id !in states[|actions|].txs
    requires !HasActive(states[|actions|].r, hash) && IsEarliest(states[|actions|].r, hash, m)
    ensures IsRun(more, done) && more[0] == states[0]
    ensures var s := states[|actions|];
      more[|done|] == s.(txs := s.txs[id := Tx(SyncCall(hash, tsaClass), WRITE, None, None, Some(m))])
  {
    var s := states[|actions|];
    var a1, a2 := Begin(id, SyncCall(hash, tsaClass)), Advance(id, Input(None, Some(m), ""));
    ExtendRun(states, actions, a1);
    more, done := states + [Step(s, a1)], actions + [a1];
    ExtendRun(more, done, a2);
    more, done := more + [Step(more[|done|], a2)], done + [a2];
    ExtendRun(more, done, a2);
    more, done := more + [Step(more[|done|], a2)], done + [a2];
    assert more[|done|].txs == s.txs[id := Tx(SyncCall(hash, tsaClass), WRITE, None, None, Some(m))];
  }

  lemma SyncWrites(states: seq<State>, actions: seq<Action>, id: nat, newId: string)
      returns (more: seq<State>, done: seq<Action>)
    requires IsRun(states, actions) && id in states[|actions|].txs
    requires var s := states[|actions|];
      && s.txs[id].call.SyncCall? && s.txs[id].Publishes() && s.txs[id].candidate.value in s.r.mats
      && !HasActive(s.r, s.txs[id].call.hash) && newId !in s.r.pubs
    ensures IsRun(more, done) && more[0] == states[0]
    ensures var s := states[|actions|];
      more[|done|] == State(Publish(s.r, s.txs[id].candidate.value, s.txs[id].call.hash, s.txs[id].call.tsaClass,
                                    newId),
                            s.txs[id := s.txs[id].(next := ENDED)])
  {
    var a := Advance(id, Input(None, None, newId));
    ExtendRun(states, actions, a);
    more, done := states + [Step(states[|actions|], a)], actions + [a];
  }

  lemma DisableRuns(states: seq<State>, actions: seq<Action>, id: nat, hash: string, p: string)
      returns (more: seq<State>, done: seq<Action>)
    requires IsRun(states, actions) && id !in states[|actions|].txs && IsActive(states[|actions|].r, hash, p)
    requires forall u | u in states[|actions|].txs :: !states[|actions|].txs[u].Locks(p)
    ensures IsRun(more, done) && more[0] == states[0]
    ensures more[|done|].r == Disable(states[|actions|].r, p)
    ensures forall u | u in states[|actions|].txs ::
      u in more[|done|].txs && more[|done|].txs[u] == states[|actions|].txs[u]
  {
    var a1, a2 := Begin(id, DisableCall(hash)), Advance(id, Input(Some(p), None, ""));
    ExtendRun(states, actions, a1);
    more, done := states + [Step(states[|actions|], a1)], actions + [a1];
    ExtendRun(more, done, a2);
    more, done := more + [Step(more[|done|], a2)], done + [a2];
    ExtendRun(more, done, a2);
    more, done := more + [Step(more[|done|], a2)], done + [a2];
  }

  // Main result: wherever a sync would publish something, there is a run in which another sync
  // publishes it first, it is disabled, and the first sync then publishes it again: the row of the
  // second one is left without a materialization and a disabled proof is shown as enabled.
  lemma StaleCandidateBreaks(start: Registry, hash: string, tsaClass: string, m: Uuid, first: string, second: string)
      returns (states: seq<State>, actions: seq<Action>)
    requires Matched(start) && !HasActive(start, hash) && IsEarliest(start, hash, m)
    requires first !in start.pubs && second !in start.pubs && first != second
    ensures Reachable(start, states, actions)
    ensures var r := states[|actions|].r;
      && !Matched(r) && IsActive(r, hash, first) && m in r.mats && r.mats[m].sticky && r.mats[m].publicId == Some(first)
      && second in r.pubs && forall n | n in r.mats :: r.mats[n].publicId != Some(second)
  {
    PublishPoints(start, m, hash, tsaClass, second);
    states, actions := [State(start, map[])], [];
    states, actions := SyncReads(states, actions, 1, hash, tsaClass, m);
    states, actions := SyncReads(states, actions, 2, hash, tsaClass, m);
    states, actions := SyncWrites(states, actions, 2, second);
    states, actions := DisableRuns(states, actions, 3, hash, second);
    NothingActive(start, hash, m, tsaClass, second);
    Overwritten(start, hash, m, tsaClass, first, second);
    states, actions := SyncWrites(states, actions, 1, first);
  }

  lemma NothingActive(start: Registry, hash: string, m: Uuid, tsaClass: string, p: string)
    requires Matched(start) && !HasActive(start, hash) && IsCandidate(start, hash, m) && p !in start.pubs
    ensures var disabled := Disable(Publish(start, m, hash, tsaClass, p), p);
      !HasActive(disabled, hash) && m in disabled.mats && disabled.mats[m].sticky
      && forall n | n in start.mats && n != m :: disabled.mats[n].publicId != Some(p)
  {
    assert forall q | q in start.pubs :: !IsActive(start, hash, q);
  }

  lemma Overwritten(start: Registry, hash: string, m: Uuid, tsaClass: string, first: string, second: string)
    requires Matched(start) && !HasActive(start, hash) && IsCandidate(start, hash, m)
    requires first !in start.pubs && second !in start.pubs && first != second
    ensures var r := Publish(Disable(Publish(start, m, hash, tsaClass, second), second), m, hash, tsaClass, first);
      && !Matched(r) && IsActive(r, hash, first) && m in r.mats && r.mats[m].sticky && r.mats[m].publicId == Some(first)
      && second in r.pubs && forall n | n in r.mats :: r.mats[n].publicId != Some(second)
  {
    NothingActive(start, hash, m, tsaClass, second);
    PublishPoints(start, m, hash, tsaClass, second);
    DisableKeeps(Publish(start, m, hash, tsaClass, second), second);
    PublishKeepsIff(Disable(Publish(start, m, hash, tsaClass, second), second), m, hash, tsaClass, first);
  }
}
