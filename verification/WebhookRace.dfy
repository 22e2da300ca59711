/** Two deliveries for one account that overlap can be applied in the wrong order. */
module WebhookRace {
  import opened Text
  import opened Uuids
  import opened PaddleEvents
  import opened WebhookModel
  import opened WebhookInvariant
  import opened WebhookRuns
  import opened WebhookOrder

  // Statements of a delivery one after another, over tables that do not change meanwhile.
  ghost predicate IsPath(store: Store, path: seq<Tx>, plans: Plans) {
    forall k | 0 < k < |path| :: IsNext(store, path[k - 1], path[k], plans)
  }

  ghost predicate IsNext(store: Store, t: Tx, after: Tx, plans: Plans) {
    t.next < COMMIT && after == Act(Look(store, t), t, plans) && after.d == t.d
  }

  // A first delivery of an event that is not outdated, for a linked account.
  ghost predicate Ready(store: Store, d: Delivery, account: Uuid, plans: Plans) {
    && d.event.Kind() != Unhandled && Get(store.hooks, d.event.eventId).None?
    && OwnerOf(store, d.event.CustomerId()) == Some(account) && account in store.accounts
    && Decide(d.event, store.accounts[account].billing.plan, plans).Ok?
    && !Before(d.event.occurredAt, Last(store.hooks, account))
    && !Taken(store.accounts, account, d.event.data.id)
  }

  function AboutToUpdate(store: Store, d: Delivery, account: Uuid, plans: Plans): Tx
    requires account in store.accounts
  {
    Tx(d, UPDATE, Some(account), store.accounts[account].billing.plan, true,
       Some(Hook(d.event.eventId, d.hash, Some(account), d.event.occurredAt, Processing)), plans, None, Open)
  }

  // A delivery on its way to its UPDATE, next to take the given statement.
  function OnTheWay(store: Store, d: Delivery, account: Uuid, next: Statement): Tx
    requires account in store.accounts
  {
    var row := Hook(d.event.eventId, d.hash, Some(account), d.event.occurredAt,
                    if next == CLAIM then Received else Processing);
    if next <= RESOLVE then NewTx(d).(next := next)
    else NewTx(d).(next := next, account := Some(account), plan := store.accounts[account].billing.plan,
                   inserted := next > INSERT, mine := if next > INSERT then Some(row) else None)
  }

  function Path(store: Store, d: Delivery, account: Uuid, plans: Plans): seq<Tx>
    requires account in store.accounts
  {
    [OnTheWay(store, d, account, FIND), OnTheWay(store, d, account, RESOLVE), OnTheWay(store, d, account, INSERT),
     OnTheWay(store, d, account, CLAIM), OnTheWay(store, d, account, READ_LAST), OnTheWay(store, d, account, DECIDE),
     AboutToUpdate(store, d, account, plans)]
  }

  lemma EarlyPath(store: Store, d: Delivery, account: Uuid, plans: Plans)
    requires Ready(store, d, account, plans)
    ensures IsNext(store, OnTheWay(store, d, account, FIND), OnTheWay(store, d, account, RESOLVE), plans)
    ensures IsNext(store, OnTheWay(store, d, account, RESOLVE), OnTheWay(store, d, account, INSERT), plans)
    ensures IsNext(store, OnTheWay(store, d, account, INSERT), OnTheWay(store, d, account, CLAIM), plans)
  {
  }

  lemma LatePath(store: Store, d: Delivery, account: Uuid, plans: Plans)
    requires Ready(store, d, account, plans)
    ensures IsNext(store, OnTheWay(store, d, account, CLAIM), OnTheWay(store, d, account, READ_LAST), plans)
    ensures IsNext(store, OnTheWay(store, d, account, READ_LAST), OnTheWay(store, d, account, DECIDE), plans)
    ensures IsNext(store, OnTheWay(store, d, account, DECIDE), AboutToUpdate(store, d, account, plans), plans)
  {
  }

  lemma PathIsPath(store: Store, d: Delivery, account: Uuid, plans: Plans)
    requires Ready(store, d, account, plans)
    ensures IsPath(store, Path(store, d, account, plans), plans)
  {
    EarlyPath(store, d, account, plans);
    LatePath(store, d, account, plans);
  }

  // Another delivery that is in nobody's way: it holds at most the row of another event.
  ghost predicate OutOfTheWay(d: Delivery, u: Tx) {
    u.next < ENDED ==> u.billing.None? && (u.mine.Some? ==> u.mine.value.id != d.event.eventId)
  }

  ghost predicate Free(s: State, id: nat) {
    id in s.txs && forall u | u in s.txs && u != id :: OutOfTheWay(s.txs[id].d, s.txs[u])
  }

  lemma ExtendReachable(of: EventOf, start: Store, states: seq<State>, actions: seq<Action>, a: Action)
    requires Reachable(of, start, states, actions) && Enabled(states[|actions|], a) && Genuine(of, a)
    ensures Reachable(of, start, states + [Step(states[|actions|], a)], actions + [a])
  {
    ExtendRun(states, actions, a, Step(states[|actions|], a));
  }

  function WithTx(s: State, id: nat, t: Tx): State {
    s.(txs := s.txs[id := t])
  }

  lemma TakeStep(s: State, id: nat, t: Tx, after: Tx, plans: Plans)
    requires Free(s, id) && IsNext(s.store, t, after, plans) && t.d == s.txs[id].d
    ensures Enabled(WithTx(s, id, t), Advance(id, plans))
    ensures Step(WithTx(s, id, t), Advance(id, plans)) == WithTx(s, id, after)
  {
    var now := WithTx(s, id, t);
    assert now.txs[id := after] == s.txs[id := after];
    forall u | u in now.txs && u != id ensures !WaitsFor(t, now.txs[u]) {
      assert now.txs[u] == s.txs[u];
    }
  }

  // A delivery in nobody's way goes along its path.
  lemma {:induction false} RunPath(of: EventOf, start: Store, states: seq<State>, actions: seq<Action>, id: nat,
                                   path: seq<Tx>, plans: Plans)
      returns (more: seq<State>, done: seq<Action>)
    requires Reachable(of, start, states, actions) && Free(states[|actions|], id)
    requires path != [] && path[0] == states[|actions|].txs[id] && IsPath(states[|actions|].store, path, plans)
    ensures Reachable(of, start, more, done) && path[|path| - 1].d == path[0].d
    ensures more[|done|] == WithTx(states[|actions|], id, path[|path| - 1])
    decreases |path|
  {
    var s := states[|actions|];
    if |path| == 1 {
      assert s.txs[id := s.txs[id]] == s.txs;
      return states, actions;
    }
    var init, a := path[..|path| - 1], Advance(id, plans);
    more, done := RunPath(of, start, states, actions, id, init, plans);
    assert IsNext(s.store, path[|path| - 2], path[|path| - 1], plans);
    TakeStep(s, id, init[|init| - 1], path[|path| - 1], plans);
    ExtendReachable(of, start, more, done, a);
    more, done := more + [Step(more[|done|], a)], done + [a];
  }

  // ... and takes its last two statements.
  lemma Finish(of: EventOf, start: Store, states: seq<State>, actions: seq<Action>, id: nat, after: Tx, plans: Plans)
      returns (more: seq<State>, done: seq<Action>)
    requires Reachable(of, start, states, actions) && Free(states[|actions|], id)
    requires states[|actions|].txs[id].next == UPDATE
    requires IsNext(states[|actions|].store, states[|actions|].txs[id], after, plans) && after.next == COMMIT
    ensures Reachable(of, start, more, done) && done != [] && more[|done| - 1].store == states[|actions|].store
    ensures var s := states[|actions|];
      more[|done|] == State(Commit(s.store, after), s.txs[id := after.(next := ENDED)], s.log + Logged(after))
  {
    var s, a := states[|actions|], Advance(id, plans);
    more, done := RunPath(of, start, states, actions, id, [s.txs[id], after], plans);
    var now := more[|done|];
    ExtendReachable(of, start, more, done, a);
    more, done := more + [Step(now, a)], done + [a];
    assert now.txs[id := after.(next := ENDED)] == s.txs[id := after.(next := ENDED)];
  }

  // A delivery starts and gets as far as its UPDATE.
  lemma StartDelivery(of: EventOf, start: Store, states: seq<State>, actions: seq<Action>, id: nat, d: Delivery,
                      account: Uuid, plans: Plans)
      returns (more: seq<State>, done: seq<Action>)
    requires Reachable(of, start, states, actions) && id !in states[|actions|].txs && d.event == of(d.hash)
    requires Ready(states[|actions|].store, d, account, plans)
    requires forall u | u in states[|actions|].txs :: OutOfTheWay(d, states[|actions|].txs[u])
    ensures Reachable(of, start, more, done)
    ensures var s := states[|actions|];
      more[|done|] == s.(txs := s.txs[id := AboutToUpdate(s.store, d, account, plans)])
  {
    var s, a := states[|actions|], Deliver(id, d);
    ExtendReachable(of, start, states, actions, a);
    PathIsPath(s.store, d, account, plans);
    more, done := RunPath(of, start, states + [Step(s, a)], actions + [a], id, Path(s.store, d, account, plans), plans);
    assert s.txs[id := NewTx(d)][id := AboutToUpdate(s.store, d, account, plans)]
      == s.txs[id := AboutToUpdate(s.store, d, account, plans)];
  }

  // The delivery about to update, once it has.
  function Updated(store: Store, t: Tx, b: Billing): Tx
    requires t.Decision().Ok? && t.mine.Some?
  {
    t.(next := COMMIT, billing := Some(t.Decision().value.On(b)),
       mine := Some(t.mine.value.(status := Processed)), reply := Done(WasProcessed))
  }

  lemma UpdateSucceeds(store: Store, t: Tx, b: Billing, plans: Plans)
    requires t.next == UPDATE && t.Decision().Ok? && t.mine.Some? && t.account.Some?
    requires BillingOf(store, t.account) == Some(b)
    requires !Taken(store.accounts, t.account.value, t.d.event.data.id)
    ensures IsNext(store, t, Updated(store, t, b), plans)
  {
  }

  lemma StillFree(store: Store, t: Tx, account: Uuid, subscription: Option<string>)
    requires t.account == Some(account) && t.mine.Some? && !Taken(store.accounts, account, subscription)
    ensures !Taken(Commit(store, t).accounts, account, subscription)
  {
  }

  // The first delivery, once the second one has changed the account under it.
  lemma UpdatesOver(store: Store, t1: Tx, t2: Tx, b: Billing, plans: Plans)
    requires t1.next == UPDATE && t1.Decision().Ok? && t2.Decision().Ok? && t1.mine.Some? && t2.mine.Some?
    requires t1.account.Some? && t2.account == t1.account && BillingOf(store, t1.account) == Some(b)
    requires !Taken(store.accounts, t1.account.value, t1.d.event.data.id)
    ensures var u2 := Updated(store, t2, b);
      IsNext(Commit(store, u2), t1, Updated(Commit(store, u2), t1, u2.billing.value), plans)
  {
    var u2 := Updated(store, t2, b);
    BillingAfterCommit(store, u2, t1.account);
    StillFree(store, u2, t1.account.value, t1.d.event.data.id);
    UpdateSucceeds(Commit(store, u2), t1, u2.billing.value, plans);
  }

  // Both deliveries are about to update; neither has changed anything yet.
  lemma BothRead(of: EventOf, start: Store, d1: Delivery, d2: Delivery, account: Uuid, plans: Plans)
      returns (states: seq<State>, actions: seq<Action>)
    requires StoreOk(of, start) && d1.event == of(d1.hash) && d2.event == of(d2.hash)
    requires d1.event.eventId != d2.event.eventId && Ready(start, d1, account, plans)
    requires Ready(start, d2, account, plans)
    ensures Reachable(of, start, states, actions)
    ensures states[|actions|] ==
      State(start, map[1 := AboutToUpdate(start, d1, account, plans),
                       2 := AboutToUpdate(start, d2, account, plans)], [])
  {
    states, actions := [State(start, map[], [])], [];
    states, actions := StartDelivery(of, start, states, actions, 1, d1, account, plans);
    states, actions := StartDelivery(of, start, states, actions, 2, d2, account, plans);
  }

  // The second one commits, then the first, which has read neither the new maximum nor the new plan.
  lemma SecondThenFirst(of: EventOf, start: Store, states: seq<State>, actions: seq<Action>, t1: Tx, t2: Tx,
                        b: Billing, plans: Plans)
      returns (more: seq<State>, done: seq<Action>)
    requires Reachable(of, start, states, actions) && states[|actions|] == State(start, map[1 := t1, 2 := t2], [])
    requires t1.next == t2.next == UPDATE && OutOfTheWay(t1.d, t2) && OutOfTheWay(t2.d, t1)
    requires t1.Decision().Ok? && t2.Decision().Ok? && t1.mine.Some? && t2.mine.Some?
    requires t1.account.Some? && t2.account == t1.account && BillingOf(start, t1.account) == Some(b)
    requires !Taken(start.accounts, t1.account.value, t1.d.event.data.id)
    requires !Taken(start.accounts, t2.account.value, t2.d.event.data.id)
    ensures Reachable(of, start, more, done) && done != []
    ensures var u2 := Updated(start, t2, b);
      var u1 := Updated(Commit(start, u2), t1, u2.billing.value);
      && more[|done| - 1].store == Commit(start, u2) && more[|done|].store == Commit(Commit(start, u2), u1)
      && more[|done|].log == Logged(u2) + Logged(u1)
  {
    var u2 := Updated(start, t2, b);
    UpdateSucceeds(start, t2, b, plans);
    UpdatesOver(start, t1, t2, b, plans);
    more, done := Finish(of, start, states, actions, 2, u2, plans);
    assert more[|done|].txs[1] == t1 && Free(more[|done|], 1);
    more, done := Finish(of, start, more, done, 1, Updated(Commit(start, u2), t1, u2.billing.value), plans);
  }

  lemma BillingWritten(store: Store, t: Tx, b: Billing)
    requires t.Decision().Ok? && t.mine.Some? && t.account.Some? && BillingOf(store, t.account) == Some(b)
    ensures BillingOf(Commit(store, Updated(store, t, b)), t.account) == Some(t.Decision().value.On(b))
    ensures Logged(Updated(store, t, b)) == [Applied(t.d, t.account.value, t.plan, t.plans)]
  {
  }

  // Any two new events of one linked account can be applied in either order, each decided on the
  // plan that the account had before both.
  lemma BothApplied(of: EventOf, start: Store, d1: Delivery, d2: Delivery, account: Uuid, plans: Plans)
      returns (states: seq<State>, actions: seq<Action>)
    requires StoreOk(of, start) && d1.event == of(d1.hash) && d2.event == of(d2.hash)
    requires d1.event.eventId != d2.event.eventId && Ready(start, d1, account, plans)
    requires Ready(start, d2, account, plans)
    ensures Reachable(of, start, states, actions) && actions != []
    ensures var b := start.accounts[account].billing;
      var between := Decide(d2.event, b.plan, plans).value.On(b);
      && states[|actions|].log == [Applied(d2, account, b.plan, plans), Applied(d1, account, b.plan, plans)]
      && BillingOf(states[|actions| - 1].store, Some(account)) == Some(between)
      && BillingOf(states[|actions|].store, Some(account)) == Some(Decide(d1.event, b.plan, plans).value.On(between))
  {
    var b := start.accounts[account].billing;
    var t1, t2 := AboutToUpdate(start, d1, account, plans), AboutToUpdate(start, d2, account, plans);
    states, actions := BothRead(of, start, d1, d2, account, plans);
    states, actions := SecondThenFirst(of, start, states, actions, t1, t2, b, plans);
    BillingWritten(start, t2, b);
    BillingWritten(Commit(start, Updated(start, t2, b)), t1, t2.Decision().value.On(b));
  }

  lemma BackInTime(hooks: seq<Hook>, older: Applied, newer: Applied)
    requires older.account == newer.account && older.d.event.occurredAt < newer.d.event.occurredAt
    ensures !InOrder(hooks, [newer, older])
  {
    assert [newer, older][..1] == [newer];
  }

  // Main result: take any two new events of one linked account, the first older than the second.
  // There is a run in which both are applied, the newer one first, and the account ends with what
  // the older one says: the older event is not recognised as outdated.
  lemma OlderEventCanWin(of: EventOf, start: Store, d1: Delivery, d2: Delivery, account: Uuid, plans: Plans)
      returns (states: seq<State>, actions: seq<Action>)
    requires StoreOk(of, start) && d1.event == of(d1.hash) && d2.event == of(d2.hash)
    requires d1.event.eventId != d2.event.eventId && d1.event.occurredAt < d2.event.occurredAt
    requires Ready(start, d1, account, plans) && Ready(start, d2, account, plans)
    ensures Reachable(of, start, states, actions)
    ensures var end, b := states[|actions|], start.accounts[account].billing;
      && end.log == [Applied(d2, account, b.plan, plans), Applied(d1, account, b.plan, plans)]
      && BillingOf(end.store, Some(account)) ==
           Some(Decide(d1.event, b.plan, plans).value.On(Decide(d2.event, b.plan, plans).value.On(b)))
      && !InOrder(start.hooks, end.log)
  {
    var b := start.accounts[account].billing;
    states, actions := BothApplied(of, start, d1, d2, account, plans);
    BackInTime(start.hooks, Applied(d1, account, b.plan, plans), Applied(d2, account, b.plan, plans));
  }
}
