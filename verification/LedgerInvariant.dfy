/** What every interleaving of append transactions keeps. */
module LedgerInvariant {
  import opened Text
  import opened Uuids
  import opened Merkle
  import opened Structure
  import opened LedgerModel

  // ---------------------------------------------------------------- the invariant

  // The chain is linked, and its row points at its last event.
  ghost predicate ChainOk(row: Option<ChainRow>, events: seq<EventRow>) {
    && Linked(events)
    && (if row.Some? then row.value.head == HeadOf(events) else events == [])
  }

  // No two events share an id, and none of one chain a key.
  ghost predicate Distinct(events: seq<EventRec>) {
    events != [] ==>
      var init, last := events[..|events| - 1], events[|events| - 1];
      Distinct(init) && !HasId(init, last.row.eventId) && FindKey(init, last.chain, last.key).None?
  }

  ghost predicate DbOk(db: Db) {
    Distinct(db.events) && forall c: Uuid :: ChainOk(ChainRowOf(db, c), History(db, c))
  }

  // A transaction past its chain lock: its own version of the chain row against the committed one.
  ghost predicate RowOk(seen: Seen, tx: Tx) {
    && tx.row.head == (if tx.next > MOVE_HEAD then Some(tx.event.eventId) else HeadOf(seen.events))
    && (!tx.wrote ==> seen.chain == Some(tx.row))
    && (seen.chain.Some? && seen.chain.value.owner.Some? ==> tx.row.owner == seen.chain.value.owner)
    && (tx.next > CHECK_OWNER ==> tx.row.owner == Some(tx.caller.account))
  }

  // What a transaction has read is still what the tables say.
  ghost predicate ReadsOk(seen: Seen, tx: Tx) {
    && (tx.next > LOOK_UP && !tx.caller.req.legacy ==> tx.plan == Some((OrNil(HeadOf(seen.events)), |seen.events| + 1)))
    && (tx.next > READ_HEAD ==> tx.event.parentId == OrNil(HeadOf(seen.events)))
    && (tx.next > READ_SEQUENCE ==> tx.event.sequence == |seen.events| + 1)
    && (tx.next > INSERT ==> !seen.idTaken)
    && (tx.next > INSERT || (tx.caller.req.legacy && tx.next > LOOK_UP) ==> seen.sameKey.None?)
    && (tx.next > SIGN ==> tx.signed == seen.events + [tx.event])
  }

  ghost predicate UsageReadOk(seen: Seen, tx: Tx) {
    var n := if tx.next > COUNT then 1 else 0;
    && (tx.next > LOCK_USAGE ==> tx.usage == Usage(seen.usage.commits + n, seen.usage.tsa + n))
    && (tx.next > CHECK_LIMITS ==> tx.limits.CanCommit(seen.usage.commits) && tx.limits.CanUseTsa(seen.usage.tsa))
  }

  ghost predicate TxOk(seen: Seen, tx: Tx) {
    tx.Past(LOCK_CHAIN) ==> RowOk(seen, tx) && ReadsOk(seen, tx) && UsageReadOk(seen, tx)
  }

  // Two transactions never hold the same row or key.
  predicate Apart(t: Tx, u: Tx) {
    && !(t.Past(LOCK_CHAIN) && u.HoldsChain(t.caller.req.chain))
    && !(t.Past(LOCK_USAGE) && u.HoldsUsage(t.caller.account, t.caller.month))
    && !(t.Past(INSERT) && u.HoldsId(t.event.eventId))
  }

  function Count(log: seq<Entry>, account: Uuid, month: Month): nat {
    if log == [] then 0
    else
      var last := log[|log| - 1];
      Count(log[..|log| - 1], account, month) +
        if last.caller.account == account && last.caller.month == month then 1 else 0
  }

  // Both counters have grown by the number of events the account committed that month.
  ghost predicate CountersOk(start: Db, db: Db, log: seq<Entry>) {
    forall a: Uuid, m: Month {:trigger UsageOf(db, a, m)} ::
      var before, n := UsageOf(start, a, m), Count(log, a, m);
      UsageOf(db, a, m) == Usage(before.commits + n, before.tsa + n)
  }

  // A committed entry: within the limits it read, by the owner of the chain, signed over the
  // chain as it was committed.
  ghost predicate EntryOk(db: Db, e: Entry) {
    && (e.limits.commitsLimit.Some? ==> e.usage.commits <= e.limits.commitsLimit.value)
    && (e.limits.tsaLimit.Some? ==> e.usage.tsa <= e.limits.tsaLimit.value)
    && e.caller.req.chain in db.chains && db.chains[e.caller.req.chain].owner == Some(e.caller.account)
    && e.signed != [] && e.signed[|e.signed| - 1] == e.event
    && Linked(e.signed) && e.signed <= History(db, e.caller.req.chain)
  }

  function Records(log: seq<Entry>): (rs: seq<EventRec>)
    ensures |rs| == |log|
  {
    seq(|log|, i requires 0 <= i < |log| => EventRec(log[i].caller.req.chain, log[i].caller.req.key, log[i].event))
  }

  ghost predicate LogOk(start: Db, db: Db, log: seq<Entry>) {
    && db.events == start.events + Records(log)
    && CountersOk(start, db, log)
    && forall i | 0 <= i < |log| :: EntryOk(db, log[i])
  }

  ghost predicate TxsOk(db: Db, txs: map<nat, Tx>) {
    && (forall id | id in txs :: TxOk(Look(db, txs[id]), txs[id]))
    && (forall t, u | t in txs && u in txs && t != u :: Apart(txs[t], txs[u]))
  }

  ghost predicate Inv(start: Db, s: State) {
    DbOk(s.db) && TxsOk(s.db, s.txs) && LogOk(start, s.db, s.log)
  }

  // ---------------------------------------------------------------- facts about linked lists

  lemma {:induction false} MaxIsLength(rows: seq<EventRow>)
    requires Numbered(rows)
    ensures MaxSequence(rows) == |rows|
  {
    if rows != [] { MaxIsLength(rows[..|rows| - 1]); }
  }

  lemma {:induction false} NextIsNew(rows: seq<EventRow>, n: I64)
    requires Numbered(rows) && n > |rows|
    ensures !HasSequence(rows, n)
  {
    if rows != [] { NextIsNew(rows[..|rows| - 1], n); }
  }

  lemma {:induction false} UpToAll(rows: seq<EventRow>, n: I64)
    requires forall i | 0 <= i < |rows| :: rows[i].sequence <= n
    ensures UpTo(rows, n) == rows
  {
    if rows != [] {
      UpToAll(rows[..|rows| - 1], n);
      assert rows == rows[..|rows| - 1] + [rows[|rows| - 1]];
    }
  }

  lemma LinkedAppend(rows: seq<EventRow>, e: EventRow)
    requires Linked(rows) && e.sequence == |rows| + 1 && e.parentId == OrNil(HeadOf(rows))
    ensures Linked(rows + [e]) && HeadOf(rows + [e]) == Some(e.eventId)
  {
  }

  lemma SnapshotIsAll(rows: seq<EventRow>, e: EventRow)
    requires Numbered(rows) && e.sequence == |rows| + 1
    ensures UpTo(rows + [e], e.sequence) == rows + [e]
  {
    UpToAll(rows + [e], e.sequence);
  }

  // ---------------------------------------------------------------- one statement

  // The row a SELECT returns is the transaction's own version, which agrees with the table.
  lemma VisibleIsOwn(seen: Seen, tx: Tx)
    requires tx.Past(LOCK_CHAIN) && RowOk(seen, tx)
    ensures VisibleRow(seen, tx) == tx.row
  {
  }

  lemma EarlyActKeeps(seen: Seen, tx: Tx, limits: Capabilities, newId: Uuid)
    requires ChainOk(seen.chain, seen.events) && TxOk(seen, tx) && tx.next <= LOOK_UP
    ensures TxOk(seen, Act(seen, tx, limits, newId))
  {
    if tx.Past(LOCK_CHAIN) { VisibleIsOwn(seen, tx); }
    MaxIsLength(seen.events);
  }

  lemma MiddleActKeeps(seen: Seen, tx: Tx, limits: Capabilities, newId: Uuid)
    requires Numbered(seen.events) && TxOk(seen, tx) && LOCK_USAGE <= tx.next <= READ_SEQUENCE
    ensures TxOk(seen, Act(seen, tx, limits, newId))
  {
    VisibleIsOwn(seen, tx);
    MaxIsLength(seen.events);
  }

  lemma LateActKeeps(seen: Seen, tx: Tx, limits: Capabilities, newId: Uuid)
    requires TxOk(seen, tx) && INSERT <= tx.next && tx.next != SIGN
    ensures TxOk(seen, Act(seen, tx, limits, newId))
  {
  }

  lemma SignKeeps(seen: Seen, tx: Tx, limits: Capabilities, newId: Uuid)
    requires Numbered(seen.events) && TxOk(seen, tx) && tx.next == SIGN
    ensures TxOk(seen, Act(seen, tx, limits, newId))
  {
    SnapshotIsAll(seen.events, tx.event);
  }

  // Every statement keeps what its transaction knows in step with the tables.
  lemma ActKeeps(seen: Seen, tx: Tx, limits: Capabilities, newId: Uuid)
    requires ChainOk(seen.chain, seen.events) && TxOk(seen, tx)
    ensures TxOk(seen, Act(seen, tx, limits, newId))
  {
    if tx.next <= LOOK_UP {
      EarlyActKeeps(seen, tx, limits, newId);
    } else if tx.next <= READ_SEQUENCE {
      MiddleActKeeps(seen, tx, limits, newId);
    } else if tx.next == SIGN {
      SignKeeps(seen, tx, limits, newId);
    } else {
      LateActKeeps(seen, tx, limits, newId);
    }
  }

  // A statement moves its transaction on to the next one or ends it, and leaves alone what the
  // locks are taken on.
  ghost predicate MovesOn(tx: Tx, after: Tx) {
    && after.caller == tx.caller
    && (tx.next >= INSERT ==> after.event.eventId == tx.event.eventId)
    && (after.next == ENDED || after.next == tx.next + 1)
  }

  lemma ActMovesOn(seen: Seen, tx: Tx, limits: Capabilities, newId: Uuid)
    ensures MovesOn(tx, Act(seen, tx, limits, newId))
  {
  }

  // A statement that did not have to wait takes no row or key another transaction holds.
  lemma MoveApart(t: Tx, after: Tx, u: Tx)
    requires Apart(t, u) && !WaitsFor(t, u) && MovesOn(t, after)
    ensures Apart(after, u) && Apart(u, after)
  {
  }

  // ---------------------------------------------------------------- a commit

  lemma HistoryAfterCommit(db: Db, tx: Tx, chain: Uuid)
    ensures History(Commit(db, tx), chain) ==
      History(db, chain) + if chain == tx.caller.req.chain then [tx.event] else []
  {
    var rec := EventRec(tx.caller.req.chain, tx.caller.req.key, tx.event);
    assert (db.events + [rec])[..|db.events|] == db.events;
  }

  lemma CommitChain(seen: Seen, tx: Tx)
    requires ChainOk(seen.chain, seen.events) && TxOk(seen, tx) && tx.next == COMMIT
    ensures ChainOk(Some(tx.row), seen.events + [tx.event])
  {
    LinkedAppend(seen.events, tx.event);
  }

  lemma CommitDistinct(db: Db, tx: Tx)
    requires Distinct(db.events) && TxOk(Look(db, tx), tx) && tx.next == COMMIT
    ensures Distinct(Commit(db, tx).events)
  {
    var events := Commit(db, tx).events;
    assert events[..|events| - 1] == db.events;
  }

  lemma CommitKeepsDb(db: Db, tx: Tx)
    requires DbOk(db) && TxOk(Look(db, tx), tx) && tx.next == COMMIT
    ensures DbOk(Commit(db, tx))
  {
    var after := Commit(db, tx);
    CommitDistinct(db, tx);
    CommitChain(Look(db, tx), tx);
    forall c: Uuid ensures ChainOk(ChainRowOf(after, c), History(after, c)) {
      HistoryAfterCommit(db, tx, c);
      assert ChainOk(ChainRowOf(db, c), History(db, c));
    }
  }

  // What a commit changes of the data another transaction reads.
  lemma LookAfterCommit(db: Db, tx: Tx, u: Tx)
    ensures var before, after := Look(db, u), Look(Commit(db, tx), u);
      && (u.caller.req.chain != tx.caller.req.chain ==>
            after.chain == before.chain && after.events == before.events && after.sameKey == before.sameKey)
      && (u.event.eventId != tx.event.eventId ==> after.idTaken == before.idTaken)
      && ((u.caller.account, u.caller.month) != (tx.caller.account, tx.caller.month) ==> after.usage == before.usage)
  {
    var rec := EventRec(tx.caller.req.chain, tx.caller.req.key, tx.event);
    assert (db.events + [rec])[..|db.events|] == db.events;
    HistoryAfterCommit(db, tx, u.caller.req.chain);
  }

  lemma TxOkDependsOn(before: Seen, after: Seen, u: Tx)
    requires TxOk(before, u)
    requires u.Past(LOCK_CHAIN) ==>
      after.chain == before.chain && after.events == before.events && after.sameKey == before.sameKey
    requires u.Past(LOCK_USAGE) ==> after.usage == before.usage
    requires u.Past(INSERT) ==> after.idTaken == before.idTaken
    ensures TxOk(after, u)
  {
  }

  lemma CommitKeepsTx(db: Db, tx: Tx, u: Tx)
    requires tx.next == COMMIT && Apart(tx, u) && TxOk(Look(db, u), u)
    ensures TxOk(Look(Commit(db, tx), u), u)
  {
    LookAfterCommit(db, tx, u);
    TxOkDependsOn(Look(db, u), Look(Commit(db, tx), u), u);
  }

  lemma CountersAfterCommit(start: Db, db: Db, log: seq<Entry>, tx: Tx)
    requires CountersOk(start, db, log) && TxOk(Look(db, tx), tx) && tx.next == COMMIT
    ensures CountersOk(start, Commit(db, tx), log + [EntryOf(tx)])
  {
    var logged := log + [EntryOf(tx)];
    forall a: Uuid, m: Month
      ensures UsageOf(Commit(db, tx), a, m)
        == Usage(UsageOf(start, a, m).commits + Count(logged, a, m), UsageOf(start, a, m).tsa + Count(logged, a, m))
    {
      CountAfterCommit(log, tx, a, m);
      assert UsageOf(db, a, m).commits == UsageOf(start, a, m).commits + Count(log, a, m);
    }
  }

  lemma CountAfterCommit(log: seq<Entry>, tx: Tx, a: Uuid, m: Month)
    ensures Count(log + [EntryOf(tx)], a, m) ==
      Count(log, a, m) + if tx.caller.account == a && tx.caller.month == m then 1 else 0
  {
    assert (log + [EntryOf(tx)])[..|log|] == log;
  }

  lemma EntryAfterCommit(db: Db, tx: Tx, e: Entry)
    requires EntryOk(db, e) && TxOk(Look(db, tx), tx) && tx.next == COMMIT
    ensures EntryOk(Commit(db, tx), e)
  {
    HistoryAfterCommit(db, tx, e.caller.req.chain);
  }

  lemma NewEntryOk(db: Db, tx: Tx)
    requires ChainOk(Look(db, tx).chain, Look(db, tx).events) && TxOk(Look(db, tx), tx) && tx.next == COMMIT
    ensures EntryOk(Commit(db, tx), EntryOf(tx))
  {
    HistoryAfterCommit(db, tx, tx.caller.req.chain);
    CommitChain(Look(db, tx), tx);
  }
}
