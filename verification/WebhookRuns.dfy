/** Theorems about every run of interleaved webhook deliveries. */
module WebhookRuns {
  import opened Text
  import opened Uuids
  import opened PaddleEvents
  import opened WebhookModel
  import opened WebhookInvariant

  // ---------------------------------------------------------------- one step

  // The delivered event is the one its bytes say: equal hashes mean equal events.
  ghost predicate Genuine(of: EventOf, a: Action) {
    a.Deliver? ==> a.d.event == of(a.d.hash)
  }

  lemma NewTxOk(of: EventOf, store: Store, d: Delivery)
    requires d.event == of(d.hash)
    ensures TxOk(of, Look(store, NewTx(d)), NewTx(d)) && forall u :: Apart(NewTx(d), u) && Apart(u, NewTx(d))
  {
  }

  lemma EndedIsApart(of: EventOf, t: Tx)
    requires t.next == ENDED && t.d.event == of(t.d.hash)
    ensures forall u :: Apart(t, u) && Apart(u, t)
    ensures forall seen :: TxOk(of, seen, t)
  {
  }

  lemma SetTx(of: EventOf, store: Store, txs: map<nat, Tx>, id: nat, after: Tx)
    requires TxsOk(of, store, txs) && TxOk(of, Look(store, after), after)
    requires forall u | u in txs && u != id :: Apart(after, txs[u]) && Apart(txs[u], after)
    ensures TxsOk(of, store, txs[id := after])
  {
    var moved := txs[id := after];
    forall u | u in moved ensures TxOk(of, Look(store, moved[u]), moved[u]) {
      if u != id { assert moved[u] == txs[u]; }
    }
  }

  lemma NowSeen(of: EventOf, store: Store, t: Tx, after: Tx)
    requires StoreOk(of, store) && after.d == t.d
    ensures SeesOn(Look(store, t), t, Look(store, after), after)
  {
  }

  lemma OwnRow(of: EventOf, seen: Seen, t: Tx)
    requires TxOk(of, seen, t) && t.next < ENDED && t.mine.Some?
    ensures t.mine.value.id == t.d.event.eventId
  {
  }

  lemma AdvanceIsApart(of: EventOf, s: State, a: Action, after: Tx, u: nat)
    requires StoreOk(of, s.store) && TxsOk(of, s.store, s.txs) && a.Advance? && Enabled(s, a)
    requires after == Act(Look(s.store, s.txs[a.id]), s.txs[a.id], a.plans) && TxOk(of, Look(s.store, after), after)
    requires u in s.txs && u != a.id
    ensures Apart(after, s.txs[u]) && Apart(s.txs[u], after)
  {
    var t := s.txs[a.id];
    ActMovesOn(Look(s.store, t), t, a.plans);
    if after.next < ENDED && after.mine.Some? { OwnRow(of, Look(s.store, after), after); }
    MoveApart(t, after, s.txs[u]);
  }

  lemma StatementKeeps(of: EventOf, s: State, a: Action)
    requires StoreOk(of, s.store) && TxsOk(of, s.store, s.txs) && a.Advance? && Enabled(s, a)
    ensures TxsOk(of, s.store, Step(s, a).txs)
  {
    var t := s.txs[a.id];
    var after := Act(Look(s.store, t), t, a.plans);
    StoreOkSeen(of, s.store, t);
    ActMovesOn(Look(s.store, t), t, a.plans);
    NowSeen(of, s.store, t, after);
    ActKeeps(of, Look(s.store, t), t, a.plans, Look(s.store, after));
    forall u | u in s.txs && u != a.id ensures Apart(after, s.txs[u]) && Apart(s.txs[u], after) {
      AdvanceIsApart(of, s, a, after, u);
    }
    SetTx(of, s.store, s.txs, a.id, after);
  }

  lemma CommitKeepsTxs(of: EventOf, s: State, a: Action)
    requires StoreOk(of, s.store) && TxsOk(of, s.store, s.txs) && a.Advance? && Enabled(s, a)
    requires s.txs[a.id].next == COMMIT
    ensures TxsOk(of, Step(s, a).store, Step(s, a).txs)
  {
    var t, after := s.txs[a.id], Step(s, a);
    EndedIsApart(of, after.txs[a.id]);
    forall u | u in s.txs && u != a.id
      ensures after.txs[u] == s.txs[u] && TxOk(of, Look(after.store, s.txs[u]), s.txs[u])
    {
      assert Apart(t, s.txs[u]);
      OtherAfterCommit(of, s.store, t, s.txs[u]);
    }
  }

  lemma OtherAfterCommit(of: EventOf, store: Store, t: Tx, u: Tx)
    requires TxOk(of, Look(store, t), t) && t.next == COMMIT && Apart(t, u) && TxOk(of, Look(store, u), u)
    ensures TxOk(of, Look(Commit(store, t), u), u)
  {
    CommitMoves(of, store, t, u);
    TxOkMoves(of, Look(store, u), Look(Commit(store, t), u), u);
  }

  lemma LinkKeepsTxs(of: EventOf, s: State, a: Action)
    requires StoreOk(of, s.store) && TxsOk(of, s.store, s.txs) && a.Link?
    ensures TxsOk(of, Step(s, a).store, Step(s, a).txs)
  {
    forall u | u in s.txs ensures TxOk(of, Look(Step(s, a).store, s.txs[u]), s.txs[u]) {
      LinkMoves(s.store, a.account, a.customer, s.txs[u]);
      TxOkMoves(of, Look(s.store, s.txs[u]), Look(Step(s, a).store, s.txs[u]), s.txs[u]);
    }
  }

  lemma FaultKeepsTxs(of: EventOf, s: State, a: Action)
    requires TxsOk(of, s.store, s.txs) && a.Fault? && Enabled(s, a)
    ensures TxsOk(of, s.store, Step(s, a).txs)
  {
    var after := s.txs[a.id].Fail(DatabaseError);
    EndedIsApart(of, after);
    SetTx(of, s.store, s.txs, a.id, after);
  }

  lemma AdvanceKeeps(of: EventOf, start: Store, s: State, a: Action)
    requires Inv(of, start, s) && Enabled(s, a) && a.Advance?
    ensures Inv(of, start, Step(s, a))
  {
    var t := s.txs[a.id];
    if t.next == COMMIT {
      CommitKeepsStore(of, s.store, t);
      CommitKeepsTxs(of, s, a);
      CommitKeepsLog(of, start, s.store, t, s.log);
    } else {
      StatementKeeps(of, s, a);
    }
  }

  lemma StepKeeps(of: EventOf, start: Store, s: State, a: Action)
    requires Inv(of, start, s) && Enabled(s, a) && Genuine(of, a)
    ensures Inv(of, start, Step(s, a))
  {
    match a
    case Deliver(id, d) =>
      NewTxOk(of, s.store, d);
      SetTx(of, s.store, s.txs, id, NewTx(d));
    case Fault(_) => FaultKeepsTxs(of, s, a);
    case Link(account, customer) =>
      LinkKeepsStore(of, s.store, account, customer);
      LinkKeepsTxs(of, s, a);
      LinkKeepsLog(start, s.store, account, customer, s.log);
    case Advance(_, _) => AdvanceKeeps(of, start, s, a);
  }

  // ---------------------------------------------------------------- runs

  ghost predicate Reachable(of: EventOf, start: Store, states: seq<State>, actions: seq<Action>) {
    && StoreOk(of, start) && IsRun(states, actions) && states[0] == State(start, map[], [])
    && forall i | 0 <= i < |actions| :: Genuine(of, actions[i])
  }

  lemma {:induction false} RunKeeps(of: EventOf, start: Store, states: seq<State>, actions: seq<Action>, n: nat)
    requires Reachable(of, start, states, actions) && n < |states|
    ensures Inv(of, start, states[n])
    decreases n
  {
    if n > 0 {
      RunKeeps(of, start, states, actions, n - 1);
      StepKeeps(of, start, states[n - 1], actions[n - 1]);
    }
  }

  // Main result: in every interleaving each account's billing is its first billing with the logged
  // writes applied in the order of their commits; no event id is logged twice, and a logged event
  // is processed. So an event changes billing at most once.
  lemma EachEventAppliesOnce(of: EventOf, start: Store, states: seq<State>, actions: seq<Action>, n: nat, account: Uuid)
    requires Reachable(of, start, states, actions) && n < |states|
    ensures BillingOf(states[n].store, Some(account)) == Replay(BillingOf(start, Some(account)), states[n].log, account)
    ensures var log := states[n].log;
      && (forall i, j | 0 <= i < j < |log| :: log[i].d.event.eventId != log[j].d.event.eventId)
      && (forall i | 0 <= i < |log| :: EntryOk(states[n].store.hooks, log[i]))
  {
    RunKeeps(of, start, states, actions, n);
  }

  // Main result: a committed row is processed, failed or waiting, and waits exactly if its
  // delivery found no account.
  lemma CommittedStatuses(of: EventOf, start: Store, states: seq<State>, actions: seq<Action>, n: nat, id: string)
    requires Reachable(of, start, states, actions) && n < |states| && Get(states[n].store.hooks, id).Some?
    ensures var row := Get(states[n].store.hooks, id).value;
      (row.status == Processed || row.status == Failed || row.status == Waiting)
      && (row.status == Waiting <==> row.account.None?)
  {
    RunKeeps(of, start, states, actions, n);
    assert RowOk(of, states[n].store.owners, id, Get(states[n].store.hooks, id).value);
  }

  lemma StepEvolves(of: EventOf, start: Store, s: State, a: Action, id: string)
    requires Inv(of, start, s) && Enabled(s, a)
    ensures RowEvolves(Get(s.store.hooks, id), Get(Step(s, a).store.hooks, id))
  {
    if a.Advance? && s.txs[a.id].next == COMMIT {
      RowAfterCommit(of, s.store, s.txs[a.id], id);
    } else if a.Link? {
      LinkAdds(s.store, a.account, a.customer);
    }
  }

  lemma NextEvolves(of: EventOf, start: Store, states: seq<State>, actions: seq<Action>, n: nat, id: string)
    requires Reachable(of, start, states, actions) && n < |actions|
    ensures RowEvolves(Get(states[n].store.hooks, id), Get(states[n + 1].store.hooks, id))
  {
    RunKeeps(of, start, states, actions, n);
    StepEvolves(of, start, states[n], actions[n], id);
  }

  lemma EvolvesOn(a: Option<Hook>, b: Option<Hook>, c: Option<Hook>)
    requires RowEvolves(a, b) && RowEvolves(b, c)
    ensures RowEvolves(a, c)
  {
  }

  // Main result: rows stay, with their hash and account, and a processed or waiting row never
  // changes again. A waiting event is thus never applied, whatever account is linked later.
  lemma {:induction false} SettledRowsStay(of: EventOf, start: Store, states: seq<State>, actions: seq<Action>,
                                           m: nat, n: nat, id: string)
    requires Reachable(of, start, states, actions) && m <= n < |states|
    ensures RowEvolves(Get(states[m].store.hooks, id), Get(states[n].store.hooks, id))
    decreases n
  {
    if m < n {
      SettledRowsStay(of, start, states, actions, m, n - 1, id);
      NextEvolves(of, start, states, actions, n - 1, id);
      EvolvesOn(Get(states[m].store.hooks, id), Get(states[n - 1].store.hooks, id), Get(states[n].store.hooks, id));
    }
  }

  // A step that touches the tables is a link or the commit of one delivery, and the
  // commit of a refused delivery only marks its row failed: accounts and log stay.
  lemma RefusedDeliveriesChangeNoAccount(of: EventOf, start: Store, s: State, a: Action)
    requires Inv(of, start, s) && Enabled(s, a) && !a.Link? && Step(s, a).store != s.store
    ensures a.Advance? && s.txs[a.id].next == COMMIT && s.txs[a.id].mine.Some?
    ensures var after, t := Step(s, a), s.txs[a.id];
      && after.txs[a.id].reply == t.reply
      && (t.reply.Refused? <==> t.mine.value.status == Failed)
      && (t.reply.Refused? ==> after.store == s.store.(hooks := Put(s.store.hooks, t.mine.value)) && after.log == s.log)
  {
    assert TxOk(of, Look(s.store, s.txs[a.id]), s.txs[a.id]);
  }

  ghost predicate OwnerStays(before: Store, after: Store, customer: string) {
    customer in before.owners ==> customer in after.owners && after.owners[customer] == before.owners[customer]
  }

  lemma StepKeepsOwner(s: State, a: Action, customer: string)
    requires IndexOk(s.store.accounts, s.store.owners) && Enabled(s, a)
    ensures OwnerStays(s.store, Step(s, a).store, customer)
  {
    if a.Link? { LinkAdds(s.store, a.account, a.customer); }
  }

  lemma NextKeepsOwner(of: EventOf, start: Store, states: seq<State>, actions: seq<Action>, n: nat, customer: string)
    requires Reachable(of, start, states, actions) && 0 < n < |states|
    ensures OwnerStays(states[n - 1].store, states[n].store, customer)
  {
    RunKeeps(of, start, states, actions, n - 1);
    StepKeepsOwner(states[n - 1], actions[n - 1], customer);
  }

  // Main result: a customer id, once linked, belongs to the same account for ever.
  lemma {:induction false} CustomersStay(of: EventOf, start: Store, states: seq<State>, actions: seq<Action>, m: nat,
                                         n: nat, customer: string)
    requires Reachable(of, start, states, actions) && m <= n < |states|
    ensures OwnerStays(states[m].store, states[n].store, customer)
    decreases n
  {
    if m < n {
      CustomersStay(of, start, states, actions, m, n - 1, customer);
      NextKeepsOwner(of, start, states, actions, n, customer);
    }
  }

  // ... and to one account only.
  lemma CustomersAreUnique(of: EventOf, start: Store, states: seq<State>, actions: seq<Action>, n: nat, a: Uuid,
                           b: Uuid)
    requires Reachable(of, start, states, actions) && n < |states|
    ensures var accounts := states[n].store.accounts;
      a in accounts && b in accounts && accounts[a].customer.Some? && accounts[a].customer == accounts[b].customer ==>
        a == b
  {
    RunKeeps(of, start, states, actions, n);
  }

  // Only a delivery that wrote the row itself parks it: an event that failed once had an account,
  // and still has it when it is retried, so that reprocessing never finds the account missing.
  lemma RetriesAreLinked(of: EventOf, start: Store, states: seq<State>, actions: seq<Action>, n: nat, id: nat)
    requires Reachable(of, start, states, actions) && n < |states| && id in states[n].txs
    ensures var t := states[n].txs[id];
      t.next == PARK ==> t.inserted && Get(states[n].store.hooks, t.d.event.eventId).None?
  {
    RunKeeps(of, start, states, actions, n);
    var t := states[n].txs[id];
    StoreOkSeen(of, states[n].store, t);
    assert TxOk(of, Look(states[n].store, t), t);
  }

  // ---------------------------------------------------------------- waiting

  // A delivery that waits for a row holds nothing, and one that waits for an account waits for a
  // delivery about to commit: waits never form a cycle.
  lemma WaitsAreShallow(of: EventOf, start: Store, s: State, t: nat, u: nat, v: nat)
    requires Inv(of, start, s) && t in s.txs && u in s.txs && v in s.txs
    requires WaitsFor(s.txs[t], s.txs[u]) && WaitsFor(s.txs[u], s.txs[v])
    ensures s.txs[t].mine.None? && s.txs[t].billing.None?
    ensures s.txs[u].next == UPDATE && s.txs[v].next == COMMIT && forall w :: !WaitsFor(s.txs[v], w)
  {
    assert TxOk(of, Look(s.store, s.txs[t]), s.txs[t]);
    assert TxOk(of, Look(s.store, s.txs[u]), s.txs[u]);
    assert TxOk(of, Look(s.store, s.txs[v]), s.txs[v]);
  }

  lemma Blocker(s: State, id: nat) returns (u: nat)
    requires id in s.txs && Blocked(s, id)
    ensures u in s.txs && u != id && WaitsFor(s.txs[id], s.txs[u]) && s.txs[u].next < ENDED
  {
    u :| u in s.txs && u != id && WaitsFor(s.txs[id], s.txs[u]);
  }

  // Main result: as long as a delivery is under way, some delivery can take its next statement.
  lemma SomeoneCanMove(of: EventOf, start: Store, s: State, id: nat) returns (mover: nat)
    requires Inv(of, start, s) && id in s.txs && s.txs[id].next < ENDED
    ensures mover in s.txs && s.txs[mover].next < ENDED && !Blocked(s, mover)
  {
    mover := id;
    if Blocked(s, id) {
      mover := Blocker(s, id);
      if Blocked(s, mover) {
        var last := Blocker(s, mover);
        WaitsAreShallow(of, start, s, id, mover, last);
        mover := last;
      }
    }
  }

  // ---------------------------------------------------------------- redeliveries

  ghost predicate SettledIn(store: Store, d: Delivery) {
    var row := Get(store.hooks, d.event.eventId);
    row.Some? && row.value.Settled()
  }

  function Without(s: State, ids: set<nat>): State {
    s.(txs := s.txs - ids)
  }

  predicate By(a: Action, ids: set<nat>) {
    !a.Link? && a.id in ids
  }

  // The actions of a run but those of the given deliveries.
  function Others(actions: seq<Action>, ids: set<nat>): seq<Action> {
    if actions == [] then []
    else
      var before, last := Others(actions[..|actions| - 1], ids), actions[|actions| - 1];
      if By(last, ids) then before else before + [last]
  }

  // A delivery of a settled event: it has not looked yet, or it has ended.
  ghost predicate Idle(store: Store, t: Tx) {
    t.next == ENDED || (t.next == FIND && t.billing.None? && t.mine.None? && SettledIn(store, t.d))
  }

  ghost predicate IdleIn(s: State, ids: set<nat>) {
    forall id | id in ids && id in s.txs :: Idle(s.store, s.txs[id])
  }

  // Its one statement ends it, with one of three replies.
  lemma IdleEnds(store: Store, t: Tx, plans: Plans)
    requires Idle(store, t) && t.next < ENDED
    ensures var after := Act(Look(store, t), t, plans);
      after.next == ENDED
      && (after.reply == Done(Idempotent) || after.reply == Done(Ignored)
          || after.reply == Refused(PayloadHashConflict))
  {
  }

  lemma EnabledWithout(s: State, a: Action, ids: set<nat>)
    requires Enabled(s, a) && !By(a, ids)
    ensures Enabled(Without(s, ids), a) && Step(Without(s, ids), a) == Without(Step(s, a), ids)
  {
    var w := Without(s, ids);
    if a.Deliver? || a.Link? {
      assert Step(w, a).txs == Step(s, a).txs - ids;
    } else {
      assert w.txs[a.id] == s.txs[a.id];
      assert Step(w, a).txs == Step(s, a).txs - ids;
    }
  }

  lemma IdleStep(s: State, a: Action, ids: set<nat>)
    requires Enabled(s, a) && By(a, ids) && IdleIn(s, ids) && (a.Deliver? ==> SettledIn(s.store, a.d))
    ensures Without(Step(s, a), ids) == Without(s, ids) && IdleIn(Step(s, a), ids)
  {
    if a.Advance? { IdleEnds(s.store, s.txs[a.id], a.plans); }
    assert Step(s, a).txs - ids == s.txs - ids;
  }

  lemma IdleStays(of: EventOf, start: Store, s: State, a: Action, ids: set<nat>)
    requires Inv(of, start, Without(s, ids)) && Enabled(s, a) && !By(a, ids) && IdleIn(s, ids)
    ensures IdleIn(Step(s, a), ids)
  {
    EnabledWithout(s, a, ids);
    forall id | id in ids && id in Step(s, a).txs ensures Idle(Step(s, a).store, Step(s, a).txs[id]) {
      StepEvolves(of, start, Without(s, ids), a, s.txs[id].d.event.eventId);
      assert Idle(s.store, s.txs[id]);
    }
  }

  lemma ExtendRun(states: seq<State>, actions: seq<Action>, a: Action, s: State)
    requires IsRun(states, actions) && Enabled(states[|actions|], a) && s == Step(states[|actions|], a)
    ensures IsRun(states + [s], actions + [a])
  {
    var ss, aa := states + [s], actions + [a];
    forall i | 0 <= i < |aa| ensures Enabled(ss[i], aa[i]) && ss[i + 1] == Step(ss[i], aa[i]) {
      if i < |actions| { assert aa[i] == actions[i] && ss[i] == states[i] && ss[i + 1] == states[i + 1]; }
    }
  }

  lemma StepWithout(of: EventOf, start: Store, rest: seq<State>, others: seq<Action>, s: State, a: Action,
                    ids: set<nat>)
    requires Reachable(of, start, rest, others) && rest[|others|] == Without(s, ids) && IdleIn(s, ids)
    requires Enabled(s, a) && !By(a, ids) && Genuine(of, a)
    ensures Reachable(of, start, rest + [Without(Step(s, a), ids)], others + [a]) && IdleIn(Step(s, a), ids)
  {
    EnabledWithout(s, a, ids);
    RunKeeps(of, start, rest, others, |others|);
    IdleStays(of, start, s, a, ids);
    ExtendRun(rest, others, a, Without(Step(s, a), ids));
  }

  // Main result: take any interleaving in which the deliveries `ids` began when their events were
  // already processed or waiting, whatever bytes they brought. Leaving all of them out is again a
  // run, and it ends with the same tables and the same log.
  lemma {:induction false} RedeliveriesAreInert(of: EventOf, start: Store, states: seq<State>, actions: seq<Action>,
                                                ids: set<nat>, n: nat)
      returns (rest: seq<State>)
    requires StoreOk(of, start) && IsRun(states, actions) && n < |states| && states[0] == State(start, map[], [])
    requires forall i | 0 <= i < |actions| :: if By(actions[i], ids)
      then actions[i].Deliver? ==> SettledIn(states[i].store, actions[i].d) else Genuine(of, actions[i])
    ensures Reachable(of, start, rest, Others(actions[..n], ids))
    ensures rest[|rest| - 1] == Without(states[n], ids) && IdleIn(states[n], ids)
    ensures rest[|rest| - 1].store == states[n].store && rest[|rest| - 1].log == states[n].log
    decreases n
  {
    if n == 0 {
      rest := [states[0]];
      assert states[0].txs - ids == map[];
      return;
    }
    var s, a := states[n - 1], actions[n - 1];
    rest := RedeliveriesAreInert(of, start, states, actions, ids, n - 1);
    assert actions[..n][..n - 1] == actions[..n - 1];
    if By(a, ids) {
      IdleStep(s, a, ids);
    } else {
      StepWithout(of, start, rest, Others(actions[..n - 1], ids), s, a, ids);
      rest := rest + [Without(states[n], ids)];
    }
  }
}
