/** Theorems about every run of interleaved append transactions. */
module LedgerRuns {
  import opened Text
  import opened Uuids
  import opened Merkle
  import opened Structure
  import opened LedgerModel
  import opened LedgerInvariant

  // ---------------------------------------------------------------- one step

  lemma AddTx(db: Db, txs: map<nat, Tx>, id: nat, tx: Tx)
    requires TxsOk(db, txs) && id !in txs && tx.next == LOCK_CHAIN
    ensures TxsOk(db, txs[id := tx])
  {
    var added := txs[id := tx];
    forall u | u in added ensures TxOk(Look(db, added[u]), added[u]) {
      if u != id { assert added[u] == txs[u]; }
    }
  }

  lemma BeginKeeps(start: Db, s: State, a: Action)
    requires Inv(start, s) && a.Begin? && Enabled(s, a)
    ensures Inv(start, Step(s, a))
  {
    AddTx(s.db, s.txs, a.id, NewTx(a.account, a.month, a.req));
  }

  lemma ReplaceTx(s: State, id: nat, after: Tx)
    requires TxsOk(s.db, s.txs) && id in s.txs && TxOk(Look(s.db, after), after)
    requires forall u | u in s.txs && u != id :: Apart(after, s.txs[u]) && Apart(s.txs[u], after)
    ensures TxsOk(s.db, s.txs[id := after])
  {
    var moved := s.txs[id := after];
    forall u | u in moved ensures TxOk(Look(s.db, moved[u]), moved[u]) {
      if u != id { assert moved[u] == s.txs[u]; }
    }
  }

  lemma EndedIsApart(t: Tx, u: Tx)
    requires t.next == ENDED
    ensures Apart(t, u) && Apart(u, t) && forall seen :: TxOk(seen, t)
  {
  }

  lemma FaultKeeps(start: Db, s: State, a: Action)
    requires Inv(start, s) && a.Fault? && Enabled(s, a)
    ensures Inv(start, Step(s, a))
  {
    var after := s.txs[a.id].Fail(DatabaseError);
    EndedIsApart(after, after);
    forall u | u in s.txs && u != a.id ensures Apart(after, s.txs[u]) && Apart(s.txs[u], after) {
      EndedIsApart(after, s.txs[u]);
    }
    ReplaceTx(s, a.id, after);
  }

  lemma AdvanceIsApart(s: State, a: Action, u: nat)
    requires TxsOk(s.db, s.txs) && a.Advance? && Enabled(s, a) && u in s.txs && u != a.id
    ensures var after := Step(s, a).txs[a.id]; Apart(after, s.txs[u]) && Apart(s.txs[u], after)
  {
    var tx := s.txs[a.id];
    ActMovesOn(Look(s.db, tx), tx, a.limits, a.newId);
    MoveApart(tx, Act(Look(s.db, tx), tx, a.limits, a.newId), s.txs[u]);
  }

  // A statement looks at the same data after it as before it, but for a newly chosen event id.
  lemma ActSeesTheSame(db: Db, tx: Tx, after: Tx)
    requires MovesOn(tx, after) && TxOk(Look(db, tx), after)
    ensures TxOk(Look(db, after), after)
  {
    TxOkDependsOn(Look(db, tx), Look(db, after), after);
  }

  lemma StatementKeepsTx(db: Db, tx: Tx, limits: Capabilities, newId: Uuid)
    requires ChainOk(Look(db, tx).chain, Look(db, tx).events) && TxOk(Look(db, tx), tx)
    ensures var after := Act(Look(db, tx), tx, limits, newId); TxOk(Look(db, after), after)
  {
    ActKeeps(Look(db, tx), tx, limits, newId);
    ActMovesOn(Look(db, tx), tx, limits, newId);
    ActSeesTheSame(db, tx, Act(Look(db, tx), tx, limits, newId));
  }

  lemma DbOkLook(db: Db, tx: Tx)
    requires DbOk(db)
    ensures ChainOk(Look(db, tx).chain, Look(db, tx).events)
  {
  }

  lemma StatementKeeps(start: Db, s: State, a: Action)
    requires Inv(start, s) && a.Advance? && Enabled(s, a) && s.txs[a.id].next != COMMIT
    ensures Inv(start, Step(s, a))
  {
    var tx := s.txs[a.id];
    var after := Act(Look(s.db, tx), tx, a.limits, a.newId);
    DbOkLook(s.db, tx);
    StatementKeepsTx(s.db, tx, a.limits, a.newId);
    forall u | u in s.txs && u != a.id ensures Apart(after, s.txs[u]) && Apart(s.txs[u], after) {
      AdvanceIsApart(s, a, u);
    }
    ReplaceTx(s, a.id, after);
  }

  // After a commit the other transactions still know what the tables say.
  lemma OthersKeepKnowing(s: State, id: nat)
    requires TxsOk(s.db, s.txs) && id in s.txs && s.txs[id].next == COMMIT
    ensures forall u | u in s.txs && u != id :: TxOk(Look(Commit(s.db, s.txs[id]), s.txs[u]), s.txs[u])
  {
    forall u | u in s.txs && u != id ensures TxOk(Look(Commit(s.db, s.txs[id]), s.txs[u]), s.txs[u]) {
      assert Apart(s.txs[id], s.txs[u]);
      CommitKeepsTx(s.db, s.txs[id], s.txs[u]);
    }
  }

  lemma CommitKeepsTxs(s: State, a: Action)
    requires TxsOk(s.db, s.txs) && a.Advance? && Enabled(s, a) && s.txs[a.id].next == COMMIT
    ensures TxsOk(Step(s, a).db, Step(s, a).txs)
  {
    OthersKeepKnowing(s, a.id);
    var after := Step(s, a).txs[a.id];
    EndedIsApart(after, after);
    forall u | u in s.txs && u != a.id ensures Apart(after, s.txs[u]) && Apart(s.txs[u], after) {
      EndedIsApart(after, s.txs[u]);
    }
    var middle := State(Commit(s.db, s.txs[a.id]), s.txs[a.id := after], s.log);
    assert forall u | u in middle.txs && u != a.id :: middle.txs[u] == s.txs[u];
  }

  lemma RecordsAppend(log: seq<Entry>, e: Entry)
    ensures Records(log + [e]) == Records(log) + [EventRec(e.caller.req.chain, e.caller.req.key, e.event)]
  {
  }

  lemma EntriesKeep(db: Db, tx: Tx, log: seq<Entry>)
    requires TxOk(Look(db, tx), tx) && tx.next == COMMIT && ChainOk(Look(db, tx).chain, Look(db, tx).events)
    requires forall i | 0 <= i < |log| :: EntryOk(db, log[i])
    ensures forall i | 0 <= i <= |log| :: EntryOk(Commit(db, tx), (log + [EntryOf(tx)])[i])
  {
    NewEntryOk(db, tx);
    forall i | 0 <= i < |log| ensures EntryOk(Commit(db, tx), log[i]) {
      EntryAfterCommit(db, tx, log[i]);
    }
  }

  lemma CommitKeepsLog(start: Db, db: Db, tx: Tx, log: seq<Entry>)
    requires TxOk(Look(db, tx), tx) && tx.next == COMMIT && ChainOk(Look(db, tx).chain, Look(db, tx).events)
    requires LogOk(start, db, log)
    ensures LogOk(start, Commit(db, tx), log + [EntryOf(tx)])
  {
    CountersAfterCommit(start, db, log, tx);
    RecordsAppend(log, EntryOf(tx));
    EntriesKeep(db, tx, log);
  }

  lemma StepKeeps(start: Db, s: State, a: Action)
    requires Inv(start, s) && Enabled(s, a)
    ensures Inv(start, Step(s, a))
  {
    match a
    case Begin(_, _, _, _) => BeginKeeps(start, s, a);
    case Fault(_) => FaultKeeps(start, s, a);
    case Advance(id, _, _) =>
      if s.txs[id].next == COMMIT {
        CommitKeepsDb(s.db, s.txs[id]);
        CommitKeepsTxs(s, a);
        DbOkLook(s.db, s.txs[id]);
        CommitKeepsLog(start, s.db, s.txs[id], s.log);
      } else {
        StatementKeeps(start, s, a);
      }
  }

  // ---------------------------------------------------------------- runs

  ghost predicate Reachable(start: Db, states: seq<State>, actions: seq<Action>) {
    DbOk(start) && IsRun(states, actions) && states[0] == State(start, map[], [])
  }

  lemma ExtendReachable(start: Db, states: seq<State>, actions: seq<Action>, a: Action)
    requires Reachable(start, states, actions) && Enabled(states[|actions|], a)
    ensures Reachable(start, states + [Step(states[|actions|], a)], actions + [a])
  {
    var ss, aa := states + [Step(states[|actions|], a)], actions + [a];
    forall i | 0 <= i < |aa| ensures Enabled(ss[i], aa[i]) && ss[i + 1] == Step(ss[i], aa[i]) {
      if i < |actions| { assert aa[i] == actions[i] && ss[i] == states[i] && ss[i + 1] == states[i + 1]; }
    }
  }

  lemma InitialInv(start: Db)
    requires DbOk(start)
    ensures Inv(start, State(start, map[], []))
  {
    assert start.events + Records([]) == start.events;
  }

  lemma {:induction false} RunKeeps(start: Db, states: seq<State>, actions: seq<Action>, n: nat)
    requires Reachable(start, states, actions) && n < |states|
    ensures Inv(start, states[n])
    decreases n
  {
    if n == 0 {
      InitialInv(start);
    } else {
      RunKeeps(start, states, actions, n - 1);
      StepKeeps(start, states[n - 1], actions[n - 1]);
    }
  }

  // Main result: in every interleaving, every committed chain is numbered 1..n, starts at nil, has
  // each parent equal to the previous id, and its row points at its last event.
  lemma ChainsStayLinked(start: Db, states: seq<State>, actions: seq<Action>, n: nat, chain: Uuid)
    requires Reachable(start, states, actions) && n < |states|
    ensures var db := states[n].db;
      && Linked(History(db, chain))
      && (chain in db.chains ==> db.chains[chain].head == HeadOf(History(db, chain)))
      && (chain !in db.chains ==> History(db, chain) == [])
  {
    RunKeeps(start, states, actions, n);
    assert ChainOk(ChainRowOf(states[n].db, chain), History(states[n].db, chain));
  }

  // A step changes nothing that is committed, or is the commit of one event to one chain.
  lemma StepExtendsOneChain(s: State, a: Action)
    requires Enabled(s, a) && Step(s, a).db != s.db
    ensures a.Advance? && s.txs[a.id].next == COMMIT && Step(s, a).txs[a.id].reply == Appended
    ensures var tx := s.txs[a.id]; forall c: Uuid ::
      History(Step(s, a).db, c) == History(s.db, c) + if c == tx.caller.req.chain then [tx.event] else []
  {
    forall c: Uuid
      ensures History(Step(s, a).db, c) ==
        History(s.db, c) + if c == s.txs[a.id].caller.req.chain then [s.txs[a.id].event] else []
    {
      HistoryAfterCommit(s.db, s.txs[a.id], c);
    }
  }

  // A chain's history only grows, and its owner, once set, stays.
  ghost predicate Extends(before: Db, after: Db, chain: Uuid) {
    History(before, chain) <= History(after, chain) && OwnerStays(before.chains, after.chains, chain)
  }

  ghost predicate OwnerStays(before: map<Uuid, ChainRow>, after: map<Uuid, ChainRow>, chain: Uuid) {
    chain in before ==> chain in after && (before[chain].owner.Some? ==> after[chain].owner == before[chain].owner)
  }

  lemma CommitExtends(db: Db, tx: Tx, chain: Uuid)
    requires TxOk(Look(db, tx), tx) && tx.next == COMMIT
    ensures Extends(db, Commit(db, tx), chain)
  {
    HistoryAfterCommit(db, tx, chain);
    assert RowOk(Look(db, tx), tx);
  }

  lemma StepExtends(start: Db, s: State, a: Action, chain: Uuid)
    requires Inv(start, s) && Enabled(s, a)
    ensures Extends(s.db, Step(s, a).db, chain)
  {
    if Step(s, a).db != s.db { CommitExtends(s.db, s.txs[a.id], chain); }
  }

  lemma NextExtends(start: Db, states: seq<State>, actions: seq<Action>, n: nat, chain: Uuid)
    requires Reachable(start, states, actions) && 0 < n < |states|
    ensures Extends(states[n - 1].db, states[n].db, chain)
  {
    RunKeeps(start, states, actions, n - 1);
    StepExtends(start, states[n - 1], actions[n - 1], chain);
  }

  lemma {:induction false} HistoriesGrow(start: Db, states: seq<State>, actions: seq<Action>, m: nat, n: nat,
                                         chain: Uuid)
    requires Reachable(start, states, actions) && m <= n < |states|
    ensures History(states[m].db, chain) <= History(states[n].db, chain)
    decreases n
  {
    if m < n {
      HistoriesGrow(start, states, actions, m, n - 1, chain);
      NextExtends(start, states, actions, n, chain);
    }
  }

  lemma OwnerStaysOn(a: map<Uuid, ChainRow>, b: map<Uuid, ChainRow>, c: map<Uuid, ChainRow>, chain: Uuid)
    requires OwnerStays(a, b, chain) && OwnerStays(b, c, chain)
    ensures OwnerStays(a, c, chain)
  {
  }

  lemma NextKeepsOwner(start: Db, states: seq<State>, actions: seq<Action>, n: nat, chain: Uuid)
    requires Reachable(start, states, actions) && 0 < n < |states|
    ensures OwnerStays(states[n - 1].db.chains, states[n].db.chains, chain)
  {
    NextExtends(start, states, actions, n, chain);
  }

  lemma {:induction false} OwnersStay(start: Db, states: seq<State>, actions: seq<Action>, m: nat, n: nat, chain: Uuid)
    requires Reachable(start, states, actions) && m <= n < |states|
    ensures OwnerStays(states[m].db.chains, states[n].db.chains, chain)
    decreases n
  {
    if m < n {
      OwnersStay(start, states, actions, m, n - 1, chain);
      NextKeepsOwner(start, states, actions, n, chain);
      OwnerStaysOn(states[m].db.chains, states[n - 1].db.chains, states[n].db.chains, chain);
    }
  }

  // Main result: between any two states of a run every chain's history has only grown, and the
  // owner it had is still its owner.
  lemma RunExtends(start: Db, states: seq<State>, actions: seq<Action>, m: nat, n: nat, chain: Uuid)
    requires Reachable(start, states, actions) && m <= n < |states|
    ensures Extends(states[m].db, states[n].db, chain)
  {
    HistoriesGrow(start, states, actions, m, n, chain);
    OwnersStay(start, states, actions, m, n, chain);
  }

  // Main result: from empty counters both counters equal the number of events the account
  // committed that month, and no commit went over the limits its transaction had read.
  lemma CountersEqualCommits(start: Db, states: seq<State>, actions: seq<Action>, n: nat, account: Uuid, month: Month)
    requires Reachable(start, states, actions) && n < |states| && start.usage == map[]
    ensures var s := states[n];
      UsageOf(s.db, account, month) == Usage(Count(s.log, account, month), Count(s.log, account, month))
    ensures states[n].db.events == start.events + Records(states[n].log)
    ensures forall e | e in states[n].log ::
      && (e.limits.commitsLimit.Some? ==> e.usage.commits <= e.limits.commitsLimit.value)
      && (e.limits.tsaLimit.Some? ==> e.usage.tsa <= e.limits.tsaLimit.value)
  {
    RunKeeps(start, states, actions, n);
    assert UsageOf(start, account, month) == Usage(0, 0);
    forall e | e in states[n].log ensures EntryOk(states[n].db, e) {
      var i :| 0 <= i < |states[n].log| && states[n].log[i] == e;
    }
  }

  // Main result: every append was made by the owner of its chain, and no chain holds two events
  // with the same key.
  lemma OwnersAndKeys(start: Db, states: seq<State>, actions: seq<Action>, n: nat)
    requires Reachable(start, states, actions) && n < |states|
    ensures var s := states[n]; forall e | e in s.log ::
      e.caller.req.chain in s.db.chains && s.db.chains[e.caller.req.chain].owner == Some(e.caller.account)
    ensures var events := states[n].db.events; forall i, j | 0 <= i < j < |events| ::
      && events[i].row.eventId != events[j].row.eventId
      && !(events[i].chain == events[j].chain && events[i].key == events[j].key)
  {
    RunKeeps(start, states, actions, n);
    forall e | e in states[n].log ensures EntryOk(states[n].db, e) {
      var i :| 0 <= i < |states[n].log| && states[n].log[i] == e;
    }
    DistinctMeans(states[n].db.events);
  }

  lemma {:induction false} DistinctMeans(events: seq<EventRec>)
    requires Distinct(events)
    ensures forall i, j | 0 <= i < j < |events| ::
      && events[i].row.eventId != events[j].row.eventId
      && !(events[i].chain == events[j].chain && events[i].key == events[j].key)
    decreases |events|
  {
    if events != [] {
      var init, last := events[..|events| - 1], events[|events| - 1];
      DistinctMeans(init);
      forall i | 0 <= i < |init|
        ensures init[i].row.eventId != last.row.eventId && !(init[i].chain == last.chain && init[i].key == last.key)
      {
        AbsentMeans(init, last, i);
      }
    }
  }

  lemma {:induction false} AbsentMeans(events: seq<EventRec>, e: EventRec, i: nat)
    requires i < |events| && !HasId(events, e.row.eventId) && FindKey(events, e.chain, e.key).None?
    ensures events[i].row.eventId != e.row.eventId && !(events[i].chain == e.chain && events[i].key == e.key)
    decreases |events|
  {
    if i < |events| - 1 { AbsentMeans(events[..|events| - 1], e, i); }
  }

  // Main result: only a request that is answered as appended has written anything; one answered
  // from the table, refused or failed leaves every committed row alone, its claim of an ownerless
  // chain included.
  lemma {:induction false} OnlyAppendedWrote(start: Db, states: seq<State>, actions: seq<Action>, k: nat, n: nat)
    requires Reachable(start, states, actions) && k < n < |states|
    requires states[k + 1].db != states[k].db
    ensures actions[k].Advance? && actions[k].id in states[n].txs
    ensures states[n].txs[actions[k].id].reply == Appended && states[n].txs[actions[k].id].next == ENDED
    decreases n
  {
    if k + 1 == n {
      StepExtendsOneChain(states[k], actions[k]);
    } else {
      OnlyAppendedWrote(start, states, actions, k, n - 1);
      EndedStays(states[n - 1], actions[n - 1], actions[k].id);
    }
  }

  lemma EndedStays(s: State, a: Action, id: nat)
    requires Enabled(s, a) && id in s.txs && s.txs[id].next == ENDED
    ensures id in Step(s, a).txs && Step(s, a).txs[id] == s.txs[id]
  {
  }

  // A repeated key is answered with the id of the one event that carries it.
  lemma RepeatIsCached(start: Db, states: seq<State>, actions: seq<Action>, n: nat, e: EventRec)
    requires Reachable(start, states, actions) && n < |actions| && actions[n].Advance?
    requires e in states[n].db.events
    requires var tx := states[n].txs[actions[n].id];
      tx.next == LOOK_UP && tx.caller.req.legacy && tx.caller.req.chain == e.chain && tx.caller.req.key == e.key
    ensures var s, id := states[n + 1], actions[n].id;
      s.db == states[n].db && s.txs[id].reply == Cached(e.row.eventId, HeadOf(History(s.db, e.chain)))
  {
    RunKeeps(start, states, actions, n);
    var tx := states[n].txs[actions[n].id];
    FindsTheOne(states[n].db.events, e);
    VisibleIsOwn(Look(states[n].db, tx), tx);
  }

  lemma {:induction false} FindsTheOne(events: seq<EventRec>, e: EventRec)
    requires Distinct(events) && e in events
    ensures FindKey(events, e.chain, e.key) == Some(e)
    decreases |events|
  {
    var init, last := events[..|events| - 1], events[|events| - 1];
    if e != last {
      assert e in init;
      FindsTheOne(init, e);
    }
  }

  // The duplicate-sequence error never occurs, and a v1 request inserts what it planned.
  lemma InsertNeverClashes(start: Db, states: seq<State>, actions: seq<Action>, n: nat, id: nat)
    requires Reachable(start, states, actions) && n < |states| && id in states[n].txs
    ensures NoClash(Look(states[n].db, states[n].txs[id]), states[n].txs[id])
  {
    RunKeeps(start, states, actions, n);
    DbOkLook(states[n].db, states[n].txs[id]);
    KnowingAvoidsClash(Look(states[n].db, states[n].txs[id]), states[n].txs[id]);
  }

  ghost predicate NoClash(seen: Seen, tx: Tx) {
    && (tx.next == INSERT ==> !HasSequence(seen.events, tx.event.sequence))
    && (tx.Past(READ_SEQUENCE) && !tx.caller.req.legacy ==> tx.plan == Some((tx.event.parentId, tx.event.sequence)))
  }

  lemma KnowingAvoidsClash(seen: Seen, tx: Tx)
    requires Numbered(seen.events) && TxOk(seen, tx)
    ensures NoClash(seen, tx)
  {
    if tx.next == INSERT { NextIsNew(seen.events, tx.event.sequence); }
  }

  // Main result: an insert fails if and only if its event id is taken or it is a v1 request whose
  // key the chain holds already, and is then reported as a database error.
  lemma InsertFailsIff(start: Db, states: seq<State>, actions: seq<Action>, n: nat)
    requires Reachable(start, states, actions) && n < |actions| && actions[n].Advance?
    requires states[n].txs[actions[n].id].next == INSERT
    ensures var db, tx, after := states[n].db, states[n].txs[actions[n].id], states[n + 1].txs[actions[n].id];
      var clash := HasId(db.events, tx.event.eventId)
        || (!tx.caller.req.legacy && FindKey(db.events, tx.caller.req.chain, tx.caller.req.key).Some?);
      && (after.reply == Failed(DatabaseError) <==> clash)
      && (after.next == MOVE_HEAD <==> !clash)
  {
    RunKeeps(start, states, actions, n);
    DuplicatesAreNeverReplied(start, states, actions, n, actions[n].id);
    InsertNeverClashes(start, states, actions, n, actions[n].id);
  }

  lemma ActReplies(seen: Seen, tx: Tx, limits: Capabilities, newId: Uuid)
    requires tx.next < ENDED && tx.reply == Open && NoClash(seen, tx)
    ensures var after := Act(seen, tx, limits, newId);
      && (after.next < ENDED ==> after.reply == Open)
      && after.reply != Failed(DuplicateIdempotencyKey) && after.reply != Failed(DuplicateChainSequence)
  {
  }

  // No request is ever answered with one of the two errors about duplicates.
  lemma {:induction false} DuplicatesAreNeverReplied(start: Db, states: seq<State>, actions: seq<Action>, n: nat,
                                                     id: nat)
    requires Reachable(start, states, actions) && n < |states| && id in states[n].txs
    ensures var tx := states[n].txs[id];
      && (tx.next < ENDED ==> tx.reply == Open)
      && tx.reply != Failed(DuplicateIdempotencyKey) && tx.reply != Failed(DuplicateChainSequence)
    decreases n
  {
    if n > 0 && id in states[n - 1].txs {
      var s, a := states[n - 1], actions[n - 1];
      DuplicatesAreNeverReplied(start, states, actions, n - 1, id);
      InsertNeverClashes(start, states, actions, n - 1, id);
      if a.Advance? && a.id == id { ActReplies(Look(s.db, s.txs[id]), s.txs[id], a.limits, a.newId); }
    }
  }

  // ---------------------------------------------------------------- no deadlock

  // Along a chain of waiting transactions each is strictly further than the one that waits for it.
  lemma {:induction false} WaitersAreBehind(path: seq<Tx>)
    requires path != [] && forall i | 0 <= i < |path| - 1 :: WaitsFor(path[i], path[i + 1])
    ensures path[0].next + |path| - 1 <= path[|path| - 1].next
    decreases |path|
  {
    if |path| > 1 {
      var rest := path[1..];
      assert WaitsFor(path[0], path[1]);
      WaitersAreBehind(rest);
    }
  }

  // So no transactions wait for each other in a circle.
  lemma NoWaitCycle(path: seq<Tx>)
    requires |path| > 1 && forall i | 0 <= i < |path| - 1 :: WaitsFor(path[i], path[i + 1])
    ensures path[0] != path[|path| - 1]
  {
    WaitersAreBehind(path);
  }

  // Main result: while a transaction is open, some open transaction can run its next statement.
  lemma {:induction false} SomeoneCanMove(s: State, id: nat)
    requires id in s.txs && s.txs[id].next != ENDED
    ensures exists u :: u in s.txs && s.txs[u].next != ENDED && !Blocked(s, u)
    decreases ENDED - s.txs[id].next
  {
    if Blocked(s, id) {
      var u :| u in s.txs && u != id && WaitsFor(s.txs[id], s.txs[u]);
      SomeoneCanMove(s, u);
    }
  }
}
