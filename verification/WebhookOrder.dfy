/** In which order events reach an account, and when a late delivery can overtake. */
module WebhookOrder {
  import opened Text
  import opened Uuids
  import opened PaddleEvents
  import opened WebhookModel
  import opened WebhookInvariant
  import opened WebhookRuns

  // The time of the event last applied to an account, or the last one processed before the run.
  function Newest(hooks: seq<Hook>, log: seq<Applied>, account: Uuid): Option<Time> {
    if log == [] then Last(hooks, account)
    else
      var last := log[|log| - 1];
      if last.account == account then Some(last.d.event.occurredAt) else Newest(hooks, log[..|log| - 1], account)
  }

  predicate Before(t: Time, newest: Option<Time>) {
    newest.Some? && t < newest.value
  }

  // Every logged event is at least as new as the one applied to its account before it.
  predicate InOrder(hooks: seq<Hook>, log: seq<Applied>) {
    log == [] ||
      var init, last := log[..|log| - 1], log[|log| - 1];
      InOrder(hooks, init) && !Before(last.d.event.occurredAt, Newest(hooks, init, last.account))
  }

  lemma {:induction false} NewestIsLate(hooks: seq<Hook>, log: seq<Applied>, i: nat)
    requires InOrder(hooks, log) && i < |log|
    ensures var newest := Newest(hooks, log, log[i].account); newest.Some? && log[i].d.event.occurredAt <= newest.value
    decreases |log|
  {
    if i < |log| - 1 { NewestIsLate(hooks, log[..|log| - 1], i); }
  }

  // In order means that the times of the events applied to one account never decrease.
  lemma {:induction false} InOrderMeans(hooks: seq<Hook>, log: seq<Applied>, i: nat, j: nat)
    requires InOrder(hooks, log) && i < j < |log| && log[i].account == log[j].account
    ensures log[i].d.event.occurredAt <= log[j].d.event.occurredAt
    decreases |log|
  {
    if j == |log| - 1 {
      NewestIsLate(hooks, log[..j], i);
    } else {
      InOrderMeans(hooks, log[..|log| - 1], i, j);
    }
  }

  // The stored maximum is the time of the last applied event.
  ghost predicate MaximaMatch(start: Store, store: Store, log: seq<Applied>) {
    forall a: Uuid {:trigger Last(store.hooks, a)} :: Last(store.hooks, a) == Newest(start.hooks, log, a)
  }

  // ---------------------------------------------------------------- one commit

  lemma LastAfterCommit(of: EventOf, store: Store, t: Tx, a: Uuid)
    requires TxOk(of, Look(store, t), t) && t.next == COMMIT
    ensures Last(Commit(store, t).hooks, a) ==
      if t.account == Some(a) && t.mine.value.status == Processed then Later(Last(store.hooks, a), t.d.event.occurredAt)
      else Last(store.hooks, a)
  {
    LastPut(store.hooks, t.mine.value, a);
  }

  lemma NewestAfterCommit(hooks: seq<Hook>, t: Tx, log: seq<Applied>, a: Uuid)
    ensures Newest(hooks, log + Logged(t), a) ==
      if t.billing.Some? && t.account == Some(a) then Some(t.d.event.occurredAt) else Newest(hooks, log, a)
  {
    if Logged(t) != [] {
      assert (log + Logged(t))[..|log|] == log;
    } else {
      assert log + Logged(t) == log;
    }
  }

  // The maximum is compared when the delivery reads it, not when it commits, so the order survives
  // a commit exactly if no newer event was processed for the account in between.
  lemma OrderSurvivesIff(of: EventOf, start: Store, s: State, a: Action)
    requires Inv(of, start, s) && Enabled(s, a) && a.Advance? && s.txs[a.id].next == COMMIT && s.txs[a.id].billing.Some?
    requires InOrder(start.hooks, s.log) && MaximaMatch(start, s.store, s.log)
    ensures s.txs[a.id].account.Some?
    ensures InOrder(start.hooks, Step(s, a).log) <==>
      !Before(s.txs[a.id].d.event.occurredAt, Last(s.store.hooks, s.txs[a.id].account.value))
  {
    var t := s.txs[a.id];
    NewEntryOk(of, s.store, t);
    assert (s.log + Logged(t))[..|s.log|] == s.log;
    assert Last(s.store.hooks, t.account.value) == Newest(start.hooks, s.log, t.account.value);
  }

  // ---------------------------------------------------------------- serial runs

  predicate Between(t: Tx) {
    READ_LAST < t.next < ENDED && t.account.Some?
  }

  // No delivery reads the maximum while another one for the same account is between its own read
  // and its end. Deliveries taken one at a time are always serial.
  ghost predicate Serial(s: State, a: Action) {
    a.Advance? && a.id in s.txs && s.txs[a.id].next == READ_LAST ==>
      forall u | u in s.txs && u != a.id :: !(Between(s.txs[u]) && s.txs[u].account == s.txs[a.id].account)
  }

  // What a delivery has read is still true: it is not outdated, or it is and skips.
  ghost predicate Current(last: Option<Time>, t: Tx) {
    Between(t) ==>
      var outdated := Before(t.d.event.occurredAt, last);
      if t.next < COMMIT || t.billing.Some? then !outdated
      else t.mine.Some? && t.mine.value.status == Processed ==> outdated
  }

  function LastOf(store: Store, t: Tx): Option<Time> {
    if t.account.Some? then Last(store.hooks, t.account.value) else None
  }

  ghost predicate AllCurrent(store: Store, txs: map<nat, Tx>) {
    forall t | t in txs :: Current(LastOf(store, txs[t]), txs[t])
  }

  ghost predicate OneEach(txs: map<nat, Tx>) {
    forall t, u | t in txs && u in txs && t != u && Between(txs[t]) && Between(txs[u]) ::
      txs[t].account != txs[u].account
  }

  ghost predicate OrderInv(start: Store, s: State) {
    && InOrder(start.hooks, s.log) && MaximaMatch(start, s.store, s.log)
    && OneEach(s.txs) && AllCurrent(s.store, s.txs)
  }

  lemma SetKeepsCurrent(store: Store, txs: map<nat, Tx>, id: nat, after: Tx)
    requires OneEach(txs) && AllCurrent(store, txs) && Current(LastOf(store, after), after)
    requires Between(after) ==> forall u | u in txs && u != id && Between(txs[u]) :: txs[u].account != after.account
    ensures OneEach(txs[id := after]) && AllCurrent(store, txs[id := after])
  {
  }

  lemma MaximumAfterCommit(of: EventOf, start: Store, store: Store, t: Tx, log: seq<Applied>, a: Uuid)
    requires TxOk(of, Look(store, t), t) && t.next == COMMIT && Current(LastOf(store, t), t)
    requires Last(store.hooks, a) == Newest(start.hooks, log, a)
    ensures Last(Commit(store, t).hooks, a) == Newest(start.hooks, log + Logged(t), a)
  {
    LastAfterCommit(of, store, t, a);
    NewestAfterCommit(start.hooks, t, log, a);
  }

  lemma CommitKeepsMaxima(of: EventOf, start: Store, store: Store, t: Tx, log: seq<Applied>)
    requires TxOk(of, Look(store, t), t) && t.next == COMMIT && Current(LastOf(store, t), t)
    requires MaximaMatch(start, store, log)
    ensures MaximaMatch(start, Commit(store, t), log + Logged(t))
  {
    forall a: Uuid ensures Last(Commit(store, t).hooks, a) == Newest(start.hooks, log + Logged(t), a) {
      assert Last(store.hooks, a) == Newest(start.hooks, log, a);
      MaximumAfterCommit(of, start, store, t, log, a);
    }
  }

  lemma CommitInOrder(of: EventOf, start: Store, store: Store, t: Tx, log: seq<Applied>)
    requires TxOk(of, Look(store, t), t) && t.next == COMMIT && Current(LastOf(store, t), t)
    requires MaximaMatch(start, store, log) && InOrder(start.hooks, log)
    ensures InOrder(start.hooks, log + Logged(t))
  {
    if Logged(t) == [] {
      assert log + Logged(t) == log;
    } else {
      assert (log + Logged(t))[..|log|] == log;
      assert Last(store.hooks, t.account.value) == Newest(start.hooks, log, t.account.value);
    }
  }

  lemma CommitKeepsOthersCurrent(of: EventOf, store: Store, txs: map<nat, Tx>, id: nat)
    requires id in txs && TxOk(of, Look(store, txs[id]), txs[id]) && txs[id].next == COMMIT
    requires OneEach(txs) && AllCurrent(store, txs)
    ensures forall u | u in txs && u != id :: Current(LastOf(Commit(store, txs[id]), txs[u]), txs[u])
  {
    forall u | u in txs && u != id ensures Current(LastOf(Commit(store, txs[id]), txs[u]), txs[u]) {
      if Between(txs[u]) { LastAfterCommit(of, store, txs[id], txs[u].account.value); }
    }
  }

  lemma CommitKeepsCurrent(of: EventOf, store: Store, txs: map<nat, Tx>, id: nat)
    requires id in txs && TxOk(of, Look(store, txs[id]), txs[id]) && txs[id].next == COMMIT
    requires OneEach(txs) && AllCurrent(store, txs)
    ensures var moved := txs[id := txs[id].(next := ENDED)];
      OneEach(moved) && AllCurrent(Commit(store, txs[id]), moved)
  {
    CommitKeepsOthersCurrent(of, store, txs, id);
  }

  lemma CommitKeepsOrder(of: EventOf, start: Store, s: State, a: Action)
    requires Inv(of, start, s) && OrderInv(start, s) && Enabled(s, a) && a.Advance? && s.txs[a.id].next == COMMIT
    ensures OrderInv(start, Step(s, a))
  {
    var t := s.txs[a.id];
    assert TxOk(of, Look(s.store, t), t) && Current(LastOf(s.store, t), t);
    CommitKeepsMaxima(of, start, s.store, t, s.log);
    CommitInOrder(of, start, s.store, t, s.log);
    CommitKeepsCurrent(of, s.store, s.txs, a.id);
  }

  // The comparison is made when the maximum is read; what follows goes on from it.
  lemma ActKeepsCurrent(seen: Seen, t: Tx, plans: Plans)
    requires READ_LAST <= t.next < COMMIT && t.billing.None? && t.account.Some? && Current(seen.last, t)
    requires t.next == UPDATE ==> seen.billing.Some? && t.Decision().Ok?
    ensures var after := Act(seen, t, plans); after.account == t.account && Current(seen.last, after)
  {
  }

  lemma NotYetBetween(seen: Seen, t: Tx, plans: Plans)
    requires t.next <= PARK && (t.next == PARK ==> t.account.None?)
    ensures !Between(Act(seen, t, plans))
  {
  }

  lemma StatementKeepsOrder(of: EventOf, start: Store, s: State, a: Action)
    requires Inv(of, start, s) && OrderInv(start, s) && Enabled(s, a) && Serial(s, a)
    requires a.Advance? && s.txs[a.id].next < COMMIT
    ensures OrderInv(start, Step(s, a))
  {
    var t := s.txs[a.id];
    var seen := Look(s.store, t);
    assert TxOk(of, seen, t);
    if t.next <= PARK { NotYetBetween(seen, t, a.plans); } else { ActKeepsCurrent(seen, t, a.plans); }
    SetKeepsCurrent(s.store, s.txs, a.id, Act(seen, t, a.plans));
  }

  lemma LinkKeepsOrder(start: Store, s: State, a: Action)
    requires OrderInv(start, s) && a.Link? && IndexOk(s.store.accounts, s.store.owners)
    ensures OrderInv(start, Step(s, a))
  {
    LinkAdds(s.store, a.account, a.customer);
    forall u | u in s.txs ensures LastOf(Step(s, a).store, s.txs[u]) == LastOf(s.store, s.txs[u]) { }
  }

  lemma StepKeepsOrder(of: EventOf, start: Store, s: State, a: Action)
    requires Inv(of, start, s) && OrderInv(start, s) && Enabled(s, a) && Serial(s, a)
    ensures OrderInv(start, Step(s, a))
  {
    match a
    case Deliver(id, d) => SetKeepsCurrent(s.store, s.txs, id, NewTx(d));
    case Fault(id) => SetKeepsCurrent(s.store, s.txs, id, s.txs[id].Fail(DatabaseError));
    case Link(_, _) => LinkKeepsOrder(start, s, a);
    case Advance(id, _) =>
      if s.txs[id].next == COMMIT { CommitKeepsOrder(of, start, s, a); } else { StatementKeepsOrder(of, start, s, a); }
  }

  lemma StartInOrder(start: Store)
    ensures OrderInv(start, State(start, map[], []))
  {
  }

  // Main result: in a serial run the events applied to each account never go back in time, and
  // the stored maximum is the time of the last one applied.
  lemma {:induction false} SerialRunsKeepOrder(of: EventOf, start: Store, states: seq<State>, actions: seq<Action>,
                                               n: nat)
    requires Reachable(of, start, states, actions) && n < |states|
    requires forall i | 0 <= i < |actions| :: Serial(states[i], actions[i])
    ensures OrderInv(start, states[n])
    decreases n
  {
    if n == 0 {
      StartInOrder(start);
    } else {
      SerialRunsKeepOrder(of, start, states, actions, n - 1);
      RunKeeps(of, start, states, actions, n - 1);
      StepKeepsOrder(of, start, states[n - 1], actions[n - 1]);
    }
  }

  // ---------------------------------------------------------------- every run

  // The commit applies an event although a newer one of its account has been processed by then.
  ghost predicate Overtaken(s: State, a: Action) {
    a.Advance? && a.id in s.txs &&
      var t := s.txs[a.id];
      t.next == COMMIT && t.billing.Some? && Before(t.d.event.occurredAt, LastOf(s.store, t))
  }

  // An event that is only marked is older than the newest processed one, and stays so.
  ghost predicate SkipOk(last: Option<Time>, t: Tx) {
    t.next == COMMIT && t.account.Some? && t.billing.None? && t.mine.Some? && t.mine.value.status == Processed ==>
      Before(t.d.event.occurredAt, last)
  }

  lemma ActKeepsSkip(of: EventOf, store: Store, t: Tx, plans: Plans)
    requires StoreOk(of, store) && TxOk(of, Look(store, t), t) && t.next < COMMIT
    ensures SkipOk(LastOf(store, Act(Look(store, t), t, plans)), Act(Look(store, t), t, plans))
  {
    var seen := Look(store, t);
    if t.next <= PARK {
      NotYetBetween(seen, t, plans);
    } else {
      ActSkips(seen, t, plans);
    }
  }

  lemma ActSkips(seen: Seen, t: Tx, plans: Plans)
    requires READ_LAST <= t.next < COMMIT && t.account.Some? && t.billing.None?
    requires t.next == UPDATE ==> seen.billing.Some? && t.Decision().Ok?
    ensures Act(seen, t, plans).account == t.account && SkipOk(seen.last, Act(seen, t, plans))
  {
  }

  lemma CommitKeepsSkip(of: EventOf, store: Store, t: Tx, u: Tx)
    requires TxOk(of, Look(store, t), t) && t.next == COMMIT && SkipOk(LastOf(store, u), u)
    ensures SkipOk(LastOf(Commit(store, t), u), u)
  {
    if u.account.Some? { LastAfterCommit(of, store, t, u.account.value); }
  }

  lemma StepKeepsSkip(of: EventOf, start: Store, s: State, a: Action, id: nat)
    requires Inv(of, start, s) && Enabled(s, a) && id in s.txs && SkipOk(LastOf(s.store, s.txs[id]), s.txs[id])
    ensures id in Step(s, a).txs && SkipOk(LastOf(Step(s, a).store, Step(s, a).txs[id]), Step(s, a).txs[id])
  {
    if a.Link? {
      LinkAdds(s.store, a.account, a.customer);
    } else if a.Advance? {
      assert TxOk(of, Look(s.store, s.txs[a.id]), s.txs[a.id]);
      if a.id != id && s.txs[a.id].next == COMMIT {
        CommitKeepsSkip(of, s.store, s.txs[a.id], s.txs[id]);
      } else if a.id == id && s.txs[id].next < COMMIT {
        ActKeepsSkip(of, s.store, s.txs[id], a.plans);
      }
    }
  }

  lemma {:induction false} RunKeepsSkip(of: EventOf, start: Store, states: seq<State>, actions: seq<Action>, n: nat,
                                        id: nat)
    requires Reachable(of, start, states, actions) && n < |states| && id in states[n].txs
    ensures SkipOk(LastOf(states[n].store, states[n].txs[id]), states[n].txs[id])
    decreases n
  {
    if n > 0 && id in states[n - 1].txs {
      RunKeepsSkip(of, start, states, actions, n - 1, id);
      RunKeeps(of, start, states, actions, n - 1);
      StepKeepsSkip(of, start, states[n - 1], actions[n - 1], id);
    } else if n > 0 {
      BegunNow(states[n - 1], actions[n - 1], id);
    }
  }

  lemma BegunNow(s: State, a: Action, id: nat)
    requires Enabled(s, a) && id !in s.txs && id in Step(s, a).txs
    ensures Step(s, a).txs[id].next == FIND
  {
  }

  // What a step does to order and maxima: it can break them only by an overtaken commit.
  lemma CommitOrderIff(of: EventOf, start: Store, s: State, a: Action)
    requires Inv(of, start, s) && Enabled(s, a) && a.Advance? && s.txs[a.id].next == COMMIT
    requires SkipOk(LastOf(s.store, s.txs[a.id]), s.txs[a.id])
    requires InOrder(start.hooks, s.log) ==> MaximaMatch(start, s.store, s.log)
    ensures InOrder(start.hooks, Step(s, a).log) <==> InOrder(start.hooks, s.log) && !Overtaken(s, a)
    ensures InOrder(start.hooks, Step(s, a).log) ==> MaximaMatch(start, Step(s, a).store, Step(s, a).log)
  {
    var t := s.txs[a.id];
    assert TxOk(of, Look(s.store, t), t);
    if !InOrder(start.hooks, s.log) {
      OrderOfPrefix(start.hooks, s.log, Logged(t));
    } else {
      if t.billing.Some? { OrderSurvivesIff(of, start, s, a); } else { assert s.log + Logged(t) == s.log; }
      if !Overtaken(s, a) { CommitKeepsMaxima(of, start, s.store, t, s.log); }
    }
  }

  lemma OrderOfPrefix(hooks: seq<Hook>, log: seq<Applied>, more: seq<Applied>)
    requires !InOrder(hooks, log) && |more| <= 1
    ensures !InOrder(hooks, log + more)
  {
    if more == [] { assert log + more == log; } else { assert (log + more)[..|log|] == log; }
  }

  lemma StepOrderIff(of: EventOf, start: Store, s: State, a: Action)
    requires Inv(of, start, s) && Enabled(s, a)
    requires a.Advance? ==> SkipOk(LastOf(s.store, s.txs[a.id]), s.txs[a.id])
    requires InOrder(start.hooks, s.log) ==> MaximaMatch(start, s.store, s.log)
    ensures InOrder(start.hooks, Step(s, a).log) <==> InOrder(start.hooks, s.log) && !Overtaken(s, a)
    ensures InOrder(start.hooks, Step(s, a).log) ==> MaximaMatch(start, Step(s, a).store, Step(s, a).log)
  {
    if a.Advance? && s.txs[a.id].next == COMMIT {
      CommitOrderIff(of, start, s, a);
    } else if a.Link? {
      LinkAdds(s.store, a.account, a.customer);
    }
  }

  lemma NextOrderIff(of: EventOf, start: Store, states: seq<State>, actions: seq<Action>, n: nat)
    requires Reachable(of, start, states, actions) && n < |actions|
    requires InOrder(start.hooks, states[n].log) ==> MaximaMatch(start, states[n].store, states[n].log)
    ensures InOrder(start.hooks, states[n + 1].log) <==>
      InOrder(start.hooks, states[n].log) && !Overtaken(states[n], actions[n])
    ensures InOrder(start.hooks, states[n + 1].log) ==> MaximaMatch(start, states[n + 1].store, states[n + 1].log)
  {
    RunKeeps(of, start, states, actions, n);
    if actions[n].Advance? { RunKeepsSkip(of, start, states, actions, n, actions[n].id); }
    StepOrderIff(of, start, states[n], actions[n]);
  }

  ghost predicate NoneOvertaken(states: seq<State>, actions: seq<Action>, n: nat)
    requires n <= |actions| && |states| == |actions| + 1
  {
    forall k | 0 <= k < n :: !Overtaken(states[k], actions[k])
  }

  lemma NoneOvertakenNext(states: seq<State>, actions: seq<Action>, n: nat)
    requires n < |actions| && |states| == |actions| + 1
    ensures NoneOvertaken(states, actions, n + 1) <==>
      NoneOvertaken(states, actions, n) && !Overtaken(states[n], actions[n])
  {
  }

  // Order and maxima after the first n steps.
  ghost predicate OrderIs(start: Store, states: seq<State>, actions: seq<Action>, n: nat)
    requires n <= |actions| && |states| == |actions| + 1
  {
    && (InOrder(start.hooks, states[n].log) <==> NoneOvertaken(states, actions, n))
    && (InOrder(start.hooks, states[n].log) ==> MaximaMatch(start, states[n].store, states[n].log))
  }

  lemma OrderNext(of: EventOf, start: Store, states: seq<State>, actions: seq<Action>, n: nat)
    requires Reachable(of, start, states, actions) && n < |actions| && OrderIs(start, states, actions, n)
    ensures OrderIs(start, states, actions, n + 1)
  {
    NextOrderIff(of, start, states, actions, n);
    NoneOvertakenNext(states, actions, n);
  }

  lemma {:induction false} OrderAlways(of: EventOf, start: Store, states: seq<State>, actions: seq<Action>, n: nat)
    requires Reachable(of, start, states, actions) && n < |states|
    ensures OrderIs(start, states, actions, n)
    decreases n
  {
    if n == 0 {
      StartInOrder(start);
    } else {
      OrderAlways(of, start, states, actions, n - 1);
      OrderNext(of, start, states, actions, n - 1);
    }
  }

  // Main result: in every run the events apply in order if and only if no applying commit found a
  // newer event of its account processed; as long as they do, the stored maxima are the times of
  // the last applied events.
  lemma EventsInOrderIff(of: EventOf, start: Store, states: seq<State>, actions: seq<Action>, n: nat)
    requires Reachable(of, start, states, actions) && n < |states|
    ensures InOrder(start.hooks, states[n].log) <==> NoneOvertaken(states, actions, n)
    ensures InOrder(start.hooks, states[n].log) ==> MaximaMatch(start, states[n].store, states[n].log)
  {
    OrderAlways(of, start, states, actions, n);
  }
}
