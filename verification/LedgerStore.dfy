/** `submit_event` as the server runs it: one transaction, statement after statement. */
module LedgerStore {
  import opened Text
  import opened Uuids
  import opened Merkle
  import opened LedgerModel
  import opened LedgerQueries
  import opened LedgerInvariant
  import opened LedgerRuns

  // Running a transaction to its end without interruption; an ended transaction keeps its fields.
  function Complete(db: Db, tx: Tx, limits: Capabilities, newId: Uuid): Tx
    decreases ENDED - tx.next
  {
    if tx.next == ENDED then tx
    else
      ActAdvances(Look(db, tx), tx, limits, newId);
      Complete(db, Act(Look(db, tx), tx, limits, newId), limits, newId)
  }

  lemma ActAdvances(seen: Seen, tx: Tx, limits: Capabilities, newId: Uuid)
    requires tx.next < ENDED
    ensures tx.next < Act(seen, tx, limits, newId).next
  {
  }

  lemma CompleteNext(db: Db, tx: Tx, limits: Capabilities, newId: Uuid)
    requires tx.next < ENDED
    ensures Complete(db, tx, limits, newId) == Complete(db, Act(Look(db, tx), tx, limits, newId), limits, newId)
  {
  }

  ghost predicate Alone(s: State, id: nat) {
    id in s.txs && forall u | u in s.txs && u != id :: s.txs[u].next == ENDED
  }

  lemma PrependStep(s: State, a: Action, states: seq<State>, actions: seq<Action>)
    requires IsRun(states, actions) && Enabled(s, a) && states[0] == Step(s, a)
    ensures IsRun([s] + states, [a] + actions)
  {
    var ss, aa := [s] + states, [a] + actions;
    forall i | 0 <= i < |aa| ensures Enabled(ss[i], aa[i]) && ss[i + 1] == Step(ss[i], aa[i]) {
      if i > 0 { assert aa[i] == actions[i - 1] && ss[i] == states[i - 1] && ss[i + 1] == states[i]; }
    }
  }

  // Running a transaction to its end is a run of the interleaving machine, in any state whose other
  // transactions have ended.
  lemma {:induction false} UninterruptedRun(s: State, id: nat, limits: Capabilities, newId: Uuid)
      returns (states: seq<State>, actions: seq<Action>)
    requires Alone(s, id) && (s.txs[id].next < ENDED ==> s.txs[id].reply == Open)
    ensures IsRun(states, actions) && states[0] == s
    ensures var end := states[|actions|]; id in end.txs && end.txs[id] == Complete(s.db, s.txs[id], limits, newId)
    ensures states[|actions|].db ==
      if s.txs[id].next < ENDED && states[|actions|].txs[id].reply == Appended
      then Commit(s.db, states[|actions|].txs[id]) else s.db
    decreases ENDED - s.txs[id].next
  {
    if s.txs[id].next == ENDED {
      return [s], [];
    }
    var a := Advance(id, limits, newId);
    var after := Step(s, a);
    ActAdvances(Look(s.db, s.txs[id]), s.txs[id], limits, newId);
    CompleteNext(s.db, s.txs[id], limits, newId);
    ActOpens(Look(s.db, s.txs[id]), s.txs[id], limits, newId);
    states, actions := UninterruptedRun(after, id, limits, newId);
    PrependStep(s, a, states, actions);
    states, actions := [s] + states, [a] + actions;
  }

  lemma ActOpens(seen: Seen, tx: Tx, limits: Capabilities, newId: Uuid)
    requires tx.next < ENDED && tx.reply == Open
    ensures var after := Act(seen, tx, limits, newId);
      && (after.next < ENDED ==> after.reply == Open)
      && (after.reply == Appended <==> tx.next == COMMIT)
  {
  }

  // ---------------------------------------------------------------- a request in order

  function IdFor(req: Request, newId: Uuid): Uuid {
    if req.eventId.Some? then req.eventId.value else newId
  }

  // A request of the chain's owner, within the limits, with a new event id.
  ghost predicate Allowed(db: Db, caller: Caller, limits: Capabilities, newId: Uuid) {
    var req, usage := caller.req, UsageOf(db, caller.account, caller.month);
    && req.chain in db.chains && db.chains[req.chain].owner == Some(caller.account)
    && MaxSequence(History(db, req.chain)) < I64_MAX
    && limits.CanCommit(usage.commits) && limits.CanUseTsa(usage.tsa) && limits.TsaAvailable()
    && !HasId(db.events, IdFor(req, newId))
  }

  predicate KeyIsNew(db: Db, req: Request) {
    FindKey(db.events, req.chain, req.key).None?
  }

  // It gets as far as its usage row, unless it is a legacy request with a known key.
  lemma AllowedPlans(db: Db, caller: Caller, limits: Capabilities, newId: Uuid) returns (tx: Tx)
    requires Allowed(db, caller, limits, newId) && (caller.req.legacy ==> KeyIsNew(db, caller.req))
    ensures Complete(db, NewTx(caller.account, caller.month, caller.req), limits, newId) ==
      Complete(db, tx, limits, newId)
    ensures tx.next == LOCK_USAGE && tx.caller == caller
    ensures !caller.req.legacy ==> tx.event.eventId == IdFor(caller.req, newId)
  {
    tx := NewTx(caller.account, caller.month, caller.req);
    CompleteNext(db, tx, limits, newId);
    tx := LockChain(Look(db, tx), tx);
    CompleteNext(db, tx, limits, newId);
    tx := CheckOwner(tx);
    CompleteNext(db, tx, limits, newId);
    tx := if caller.req.legacy then CheckReplay(Look(db, tx), tx) else PlanEvent(Look(db, tx), tx, newId);
  }

  // ... and from there to its insert.
  lemma AllowedInserts(db: Db, tx: Tx, limits: Capabilities, newId: Uuid) returns (t: Tx)
    requires tx.next == LOCK_USAGE && Allowed(db, tx.caller, limits, newId)
    requires !tx.caller.req.legacy ==> tx.event.eventId == IdFor(tx.caller.req, newId)
    ensures Complete(db, tx, limits, newId) == Complete(db, t, limits, newId)
    ensures t.next == INSERT && t.caller == tx.caller && t.usage == UsageOf(db, tx.caller.account, tx.caller.month)
    ensures t.event.eventId == IdFor(tx.caller.req, newId)
    ensures t.event.sequence == MaxSequence(History(db, tx.caller.req.chain)) + 1
  {
    CompleteNext(db, tx, limits, newId);
    t := LockUsage(Look(db, tx), tx);
    CompleteNext(db, t, limits, newId);
    t := CheckLimits(t, limits);
    CompleteNext(db, t, limits, newId);
    t := ReadHead(Look(db, t), t);
    CompleteNext(db, t, limits, newId);
    t := ReadSequence(Look(db, t), t, newId);
  }

  // ---------------------------------------------------------------- a repeated v1 key

  // A v1 request with a key its chain holds already, in order in every other respect. It gets here
  // if no response is stored for the key: a legacy request used it, or the stored one has expired.
  ghost predicate RepeatsKey(db: Db, caller: Caller, limits: Capabilities, newId: Uuid) {
    !caller.req.legacy && !KeyIsNew(db, caller.req) && Allowed(db, caller, limits, newId)
  }

  // It is answered with a database error, not with the error for duplicate keys, and writes nothing.
  lemma RepeatedKeyFails(db: Db, caller: Caller, limits: Capabilities, newId: Uuid)
      returns (states: seq<State>, actions: seq<Action>)
    requires DbOk(db) && RepeatsKey(db, caller, limits, newId)
    ensures Reachable(db, states, actions) && 1 in states[|actions|].txs
    ensures states[|actions|].txs[1].caller == caller
    ensures states[|actions|].db == db && states[|actions|].txs[1].reply == Failed(DatabaseError)
  {
    var s0, a := State(db, map[], []), Begin(1, caller.account, caller.month, caller.req);
    var s := Step(s0, a);
    var tx := AllowedPlans(db, caller, limits, newId);
    tx := AllowedInserts(db, tx, limits, newId);
    CompleteNext(db, tx, limits, newId);
    assert InsertEvent(Look(db, tx), tx) == tx.Fail(DatabaseError);
    states, actions := UninterruptedRun(s, 1, limits, newId);
    PrependStep(s0, a, states, actions);
    states, actions := [s0] + states, [a] + actions;
  }

  // ---------------------------------------------------------------- an append alone

  // A request that appends an event if nothing interferes.
  ghost predicate CanAppend(db: Db, caller: Caller, limits: Capabilities, newId: Uuid) {
    var usage := UsageOf(db, caller.account, caller.month);
    Allowed(db, caller, limits, newId) && KeyIsNew(db, caller.req) && usage.commits < I32_MAX && usage.tsa < I32_MAX
  }

  lemma InsertedAppends(db: Db, tx: Tx, limits: Capabilities, newId: Uuid)
    requires tx.next == INSERT && CanAppend(db, tx.caller, limits, newId) && Numbered(History(db, tx.caller.req.chain))
    requires tx.usage == UsageOf(db, tx.caller.account, tx.caller.month)
    requires tx.event.eventId == IdFor(tx.caller.req, newId)
    requires tx.event.sequence == MaxSequence(History(db, tx.caller.req.chain)) + 1
    ensures var done := Complete(db, tx, limits, newId); done.reply == Appended && done.caller == tx.caller
  {
    MaxIsLength(History(db, tx.caller.req.chain));
    NextIsNew(History(db, tx.caller.req.chain), tx.event.sequence);
    CompleteNext(db, tx, limits, newId);
    var t := InsertEvent(Look(db, tx), tx);
    CompleteNext(db, t, limits, newId);
    t := MoveHead(t);
    CompleteNext(db, t, limits, newId);
    t := CountUsage(t);
    CompleteNext(db, t, limits, newId);
    t := SignSnapshot(Look(db, t), t);
    CompleteNext(db, t, limits, newId);
  }

  lemma AppendsAlone(db: Db, caller: Caller, limits: Capabilities, newId: Uuid)
    requires CanAppend(db, caller, limits, newId) && Numbered(History(db, caller.req.chain))
    ensures var done := Complete(db, NewTx(caller.account, caller.month, caller.req), limits, newId);
      done.reply == Appended && done.caller == caller
  {
    var tx := AllowedPlans(db, caller, limits, newId);
    tx := AllowedInserts(db, tx, limits, newId);
    InsertedAppends(db, tx, limits, newId);
  }

  // ---------------------------------------------------------------- every submission alone

  // From the insert on: a taken id, a known key or a full counter is a database error.
  lemma InsertedEnds(db: Db, tx: Tx, limits: Capabilities, newId: Uuid)
    requires tx.next == INSERT && tx.reply == Open
    requires tx.event.sequence == MaxSequence(History(db, tx.caller.req.chain)) + 1
    ensures var done := Complete(db, tx, limits, newId);
      && done.reply == (if HasId(db.events, tx.event.eventId) || !KeyIsNew(db, tx.caller.req)
                           || tx.usage.commits >= 0x7fff_ffff || tx.usage.tsa >= 0x7fff_ffff
                        then Failed(DatabaseError) else Appended)
      && (done.reply == Appended ==>
            && done.caller == tx.caller && done.event == tx.event
            && done.row == ChainRow(Some(tx.event.eventId), tx.row.owner)
            && done.usage == Usage(tx.usage.commits + 1, tx.usage.tsa + 1))
  {
    MaxSequenceIs(History(db, tx.caller.req.chain));
    AboveMaximum(History(db, tx.caller.req.chain), tx.event.sequence);
    CompleteNext(db, tx, limits, newId);
    var t := InsertEvent(Look(db, tx), tx);
    if t.next == MOVE_HEAD { MovedEnds(db, t, limits, newId); }
  }

  lemma MovedEnds(db: Db, tx: Tx, limits: Capabilities, newId: Uuid)
    requires tx.next == MOVE_HEAD && tx.reply == Open
    ensures var done := Complete(db, tx, limits, newId);
      && done.reply == (if tx.usage.commits >= 0x7fff_ffff || tx.usage.tsa >= 0x7fff_ffff
                        then Failed(DatabaseError) else Appended)
      && (done.reply == Appended ==>
            && done.caller == tx.caller && done.event == tx.event
            && done.row == ChainRow(Some(tx.event.eventId), tx.row.owner)
            && done.usage == Usage(tx.usage.commits + 1, tx.usage.tsa + 1))
  {
    CompleteNext(db, tx, limits, newId);
    var t := MoveHead(tx);
    CompleteNext(db, t, limits, newId);
    t := CountUsage(t);
    if t.next == SIGN {
      CompleteNext(db, t, limits, newId);
      t := SignSnapshot(Look(db, t), t);
      CompleteNext(db, t, limits, newId);
    }
  }

  // The limits are refused in this order: commits, time stamps, the kind of time stamp.
  ghost function Refusal(usage: Usage, limits: Capabilities): Option<LedgerError> {
    if limits.commitsLimit.Some? && usage.commits >= limits.commitsLimit.value then Some(UsageLimitExceeded)
    else if limits.tsaLimit.Some? && usage.tsa >= limits.tsaLimit.value then Some(TsaLimitExceeded)
    else if limits.tsaMode.Qualified? then Some(QualifiedTsaUnavailable)
    else None
  }

  lemma LimitedEnds(db: Db, tx: Tx, limits: Capabilities, newId: Uuid) returns (t: Tx)
    requires tx.next == LOCK_USAGE && tx.reply == Open
    requires !tx.caller.req.legacy ==> tx.event.eventId == IdFor(tx.caller.req, newId)
    ensures Complete(db, tx, limits, newId) == Complete(db, t, limits, newId)
    ensures var usage := UsageOf(db, tx.caller.account, tx.caller.month);
      var max := MaxSequence(History(db, tx.caller.req.chain));
      if Refusal(usage, limits).Some? then t.next == ENDED && t.reply == Failed(Refusal(usage, limits).value)
      else if max == I64_MAX then t.next == ENDED && t.reply == Failed(DatabaseError)
      else
        && t.next == INSERT && t.reply == Open && t.caller == tx.caller && t.row == tx.row && t.usage == usage
        && t.event == EventRow(max + 1, IdFor(tx.caller.req, newId), OrNil(VisibleRow(Look(db, tx), tx).head),
                               tx.event.fileHash)
  {
    CompleteNext(db, tx, limits, newId);
    t := LockUsage(Look(db, tx), tx);
    CompleteNext(db, t, limits, newId);
    t := CheckLimits(t, limits);
    if t.next == ENDED { return; }
    CompleteNext(db, t, limits, newId);
    t := ReadHead(Look(db, t), t);
    CompleteNext(db, t, limits, newId);
    t := ReadSequence(Look(db, t), t, newId);
  }

  // A legacy request gets as far as its usage row, or is refused or answered from the table.
  lemma SubmittedLooks(db: Db, caller: Caller, limits: Capabilities, newId: Uuid) returns (t: Tx)
    requires caller.req.legacy
    ensures Complete(db, NewTx(caller.account, caller.month, caller.req), limits, newId) ==
      Complete(db, t, limits, newId)
    ensures var req := caller.req;
      if Foreign(db, caller) then t.next == ENDED && t.reply == Failed(ChainAccessDenied)
      else if !KeyIsNew(db, req) then
        t.next == ENDED &&
        t.reply == Cached(FindKey(db.events, req.chain, req.key).value.row.eventId, HeadBefore(db, req))
      else
        && t.next == LOCK_USAGE && t.reply == Open && t.caller == caller && t.event.fileHash == req.fileHash
        && t.row.owner == Some(caller.account) && VisibleRow(Look(db, t), t).head == HeadBefore(db, req)
  {
    t := NewTx(caller.account, caller.month, caller.req);
    CompleteNext(db, t, limits, newId);
    t := LockChain(Look(db, t), t);
    CompleteNext(db, t, limits, newId);
    t := CheckOwner(t);
    if t.next == ENDED { return; }
    CompleteNext(db, t, limits, newId);
    t := CheckReplay(Look(db, t), t);
  }

  // A v1 request plans its event instead.
  lemma PlannedLooks(db: Db, caller: Caller, limits: Capabilities, newId: Uuid) returns (t: Tx)
    requires !caller.req.legacy
    ensures Complete(db, NewTx(caller.account, caller.month, caller.req), limits, newId) ==
      Complete(db, t, limits, newId)
    ensures var req := caller.req;
      if Foreign(db, caller) then t.next == ENDED && t.reply == Failed(ChainAccessDenied)
      else if MaxSequence(History(db, req.chain)) == I64_MAX then t.next == ENDED && t.reply == Failed(DatabaseError)
      else
        && t.next == LOCK_USAGE && t.reply == Open && t.caller == caller && t.event.fileHash == req.fileHash
        && t.event.eventId == IdFor(req, newId)
        && t.row.owner == Some(caller.account) && VisibleRow(Look(db, t), t).head == HeadBefore(db, req)
  {
    t := NewTx(caller.account, caller.month, caller.req);
    CompleteNext(db, t, limits, newId);
    t := LockChain(Look(db, t), t);
    CompleteNext(db, t, limits, newId);
    t := CheckOwner(t);
    if t.next == ENDED { return; }
    CompleteNext(db, t, limits, newId);
    t := PlanEvent(Look(db, t), t, newId);
  }

  // The chain belongs to somebody else.
  predicate Foreign(db: Db, caller: Caller) {
    var chain := caller.req.chain;
    chain in db.chains && db.chains[chain].owner.Some? && db.chains[chain].owner.value != caller.account
  }

  function HeadBefore(db: Db, req: Request): Option<Uuid> {
    if req.chain in db.chains then db.chains[req.chain].head else None
  }

  // Main result: what a legacy request that runs alone is answered, and what it writes.
  lemma SubmissionIs(db: Db, caller: Caller, limits: Capabilities, newId: Uuid)
    requires caller.req.legacy
    ensures var done := Complete(db, NewTx(caller.account, caller.month, caller.req), limits, newId);
      var req, usage := caller.req, UsageOf(db, caller.account, caller.month);
      var max := MaxSequence(History(db, req.chain));
      && done.reply == (
           if Foreign(db, caller) then Failed(ChainAccessDenied)
           else if !KeyIsNew(db, req) then
             Cached(FindKey(db.events, req.chain, req.key).value.row.eventId, HeadBefore(db, req))
           else if Refusal(usage, limits).Some? then Failed(Refusal(usage, limits).value)
           else if max == 0x7fff_ffff_ffff_ffff || HasId(db.events, IdFor(req, newId))
                   || usage.commits >= 0x7fff_ffff || usage.tsa >= 0x7fff_ffff then Failed(DatabaseError)
           else Appended)
      && (done.reply == Appended ==>
            && done.caller == caller && max < I64_MAX
            && done.event == EventRow(max + 1, IdFor(req, newId), OrNil(HeadBefore(db, req)), req.fileHash)
            && done.row == ChainRow(Some(IdFor(req, newId)), Some(caller.account))
            && done.usage == Usage(usage.commits + 1, usage.tsa + 1))
  {
    var t := SubmittedLooks(db, caller, limits, newId);
    if t.next == LOCK_USAGE {
      var u := LimitedEnds(db, t, limits, newId);
      if u.next == INSERT { InsertedEnds(db, u, limits, newId); }
    }
  }

  // ... and a v1 request: it does not look its key up, so that a known one is a database error.
  lemma V1SubmissionIs(db: Db, caller: Caller, limits: Capabilities, newId: Uuid)
    requires !caller.req.legacy
    ensures var done := Complete(db, NewTx(caller.account, caller.month, caller.req), limits, newId);
      var req, usage := caller.req, UsageOf(db, caller.account, caller.month);
      var max := MaxSequence(History(db, req.chain));
      && done.reply == (
           if Foreign(db, caller) then Failed(ChainAccessDenied)
           else if max == 0x7fff_ffff_ffff_ffff then Failed(DatabaseError)
           else if Refusal(usage, limits).Some? then Failed(Refusal(usage, limits).value)
           else if HasId(db.events, IdFor(req, newId)) || !KeyIsNew(db, req)
                   || usage.commits >= 0x7fff_ffff || usage.tsa >= 0x7fff_ffff then Failed(DatabaseError)
           else Appended)
      && (done.reply == Appended ==>
            && done.caller == caller && max < I64_MAX
            && done.event == EventRow(max + 1, IdFor(req, newId), OrNil(HeadBefore(db, req)), req.fileHash)
            && done.row == ChainRow(Some(IdFor(req, newId)), Some(caller.account))
            && done.usage == Usage(usage.commits + 1, usage.tsa + 1))
  {
    var t := PlannedLooks(db, caller, limits, newId);
    if t.next == LOCK_USAGE {
      var u := LimitedEnds(db, t, limits, newId);
      if u.next == INSERT { InsertedEnds(db, u, limits, newId); }
    }
  }

  // What the commit of an append makes of the tables.
  lemma AppendedTables(db: Db, caller: Caller, limits: Capabilities, newId: Uuid)
    requires caller.req.legacy
    requires Complete(db, NewTx(caller.account, caller.month, caller.req), limits, newId).reply == Appended
    ensures var req, id := caller.req, IdFor(caller.req, newId);
      var before, head := UsageOf(db, caller.account, caller.month), HeadBefore(db, req);
      MaxSequence(History(db, req.chain)) < I64_MAX &&
      Commit(db, Complete(db, NewTx(caller.account, caller.month, req), limits, newId)) ==
        Db(db.chains[req.chain := ChainRow(Some(id), Some(caller.account))],
           db.events + [EventRec(req.chain, req.key, EventRow(MaxSequence(History(db, req.chain)) + 1, id,
                                                              if head.Some? then head.value else NIL, req.fileHash))],
           db.usage[(caller.account, caller.month) := Usage(before.commits + 1, before.tsa + 1)])
  {
    SubmissionIs(db, caller, limits, newId);
  }

  // ---------------------------------------------------------------- the code

  // The open transaction of one request.
  class Transaction {
    const caller: Caller
    var next: Statement
    var row: ChainRow
    var wrote: bool
    var plan: Option<(Uuid, I64)>
    var usage: Usage
    var limits: Capabilities
    var event: EventRow
    var signed: seq<EventRow>
    var reply: Reply

    function View(): Tx reads this {
      Tx(caller, next, row, wrote, plan, usage, limits, event, signed, reply)
    }

    constructor (account: Uuid, month: Month, req: Request)
      ensures View() == NewTx(account, month, req)
      ensures caller == Caller(account, month, req) && event.fileHash == req.fileHash
      ensures reply == Open && !wrote && signed == [] && plan.None? && next == LOCK_CHAIN
    {
      caller := Caller(account, month, req);
      next, row, wrote, plan := LOCK_CHAIN, ChainRow(None, None), false, None;
      usage, limits := Usage(0, 0), Capabilities(None, None, Machine);
      event, signed, reply := EventRow(0, NIL, NIL, req.fileHash), [], Open;
    }

    method Fail(e: LedgerError)
      modifies this
      ensures View() == old(View()).Fail(e)
    {
      next, reply := ENDED, Failed(e);
    }

    // ensure_chain_access_in_tx, first half: insert the chain or lock its row.
    method LockChainRow(db: Db)
      modifies this
      ensures View() == LockChain(Look(db, old(View())), old(View()))
    {
      if caller.req.chain !in db.chains {
        row := ChainRow(None, Some(caller.account));
        wrote := true;
      } else {
        row := db.chains[caller.req.chain];
      }
      next := CHECK_OWNER;
    }

    // ensure_chain_access_in_tx, second half: refuse another owner, claim an ownerless chain.
    method EnsureAccess()
      modifies this
      ensures View() == CheckOwner(old(View()))
    {
      if row.owner.Some? && row.owner.value != caller.account {
        Fail(ChainAccessDenied);
        return;
      }
      if row.owner.None? {
        row := row.(owner := Some(caller.account));
        wrote := true;
      }
      next := LOOK_UP;
    }

    method ReplyFromTable(db: Db)
      modifies this
      ensures View() == CheckReplay(Look(db, old(View())), old(View()))
    {
      var existing := FindKey(db.events, caller.req.chain, caller.req.key);
      if existing.Some? {
        reply := Cached(existing.value.row.eventId, VisibleRow(Look(db, View()), View()).head);
        next := ENDED;
        return;
      }
      next := LOCK_USAGE;
    }

    method CheckUsage(capabilities: Capabilities)
      modifies this
      ensures View() == CheckLimits(old(View()), capabilities)
    {
      if !capabilities.CanCommit(usage.commits) {
        Fail(UsageLimitExceeded);
      } else if !capabilities.CanUseTsa(usage.tsa) {
        Fail(TsaLimitExceeded);
      } else if !capabilities.TsaAvailable() {
        Fail(QualifiedTsaUnavailable);
      } else {
        limits, next := capabilities, READ_HEAD;
      }
    }

    method ReadParent(db: Db)
      modifies this
      ensures View() == ReadHead(Look(db, old(View())), old(View()))
    {
      event := event.(parentId := OrNil(VisibleRow(Look(db, View()), View()).head));
      next := READ_SEQUENCE;
    }

    method ReadNextSequence(db: Db, newId: Uuid)
      modifies this
      ensures View() == ReadSequence(Look(db, old(View())), old(View()), newId)
    {
      var max := MaxSequence(History(db, caller.req.chain));
      if max == I64_MAX {
        Fail(DatabaseError);
        return;
      }
      if caller.req.legacy {
        event := event.(eventId := ChooseId(View(), newId));
      }
      event := event.(sequence := max + 1);
      next := INSERT;
    }

    method InsertRow(db: Db)
      modifies this
      ensures View() == InsertEvent(Look(db, old(View())), old(View()))
    {
      if HasId(db.events, event.eventId) || FindKey(db.events, caller.req.chain, caller.req.key).Some? {
        Fail(DatabaseError);
      } else if HasSequence(History(db, caller.req.chain), event.sequence) {
        Fail(DuplicateChainSequence);
      } else {
        next := MOVE_HEAD;
      }
    }

    method MoveChainHead()
      modifies this
      ensures View() == MoveHead(old(View()))
    {
      row := row.(head := Some(event.eventId));
      wrote, next := true, COUNT;
    }

    method BumpCounters()
      modifies this
      ensures View() == CountUsage(old(View()))
    {
      if usage.commits >= I32_MAX || usage.tsa >= I32_MAX {
        Fail(DatabaseError);
        return;
      }
      usage := Usage(usage.commits + 1, usage.tsa + 1);
      next := SIGN;
    }
  }

  // The committed tables.
  class Ledger {
    var chains: map<Uuid, ChainRow>
    var events: seq<EventRec>
    var usage: map<(Uuid, Month), Usage>

    function Contents(): Db reads this { Db(chains, events, usage) }

    // submit_event up to its commit. The statements in between are those of insert_event_in_tx.
    method SubmitEvent(account: Uuid, month: Month, req: Request, limits: Capabilities, newId: Uuid)
        returns (reply: Reply)
      requires req.legacy
      modifies this
      ensures var done := Complete(old(Contents()), NewTx(account, month, req), limits, newId);
        && reply == done.reply
        && Contents() == if reply == Appended then Commit(old(Contents()), done) else old(Contents())
      ensures reply == Appended ==>
        MaxSequence(History(old(Contents()), req.chain)) < I64_MAX
        && var id := if req.eventId.Some? then req.eventId.value else newId;
           var head := if req.chain in old(chains) then old(chains)[req.chain].head else None;
           var before := if (account, month) in old(usage) then old(usage)[(account, month)] else Usage(0, 0);
           && chains == old(chains)[req.chain := ChainRow(Some(id), Some(account))]
           && events == old(events) +
                [EventRec(req.chain, req.key, EventRow(MaxSequence(History(old(Contents()), req.chain)) + 1, id,
                                                       if head.Some? then head.value else NIL, req.fileHash))]
           && usage == old(usage)[(account, month) := Usage(before.commits + 1, before.tsa + 1)]
      ensures reply != Appended ==> Contents() == old(Contents())
    {
      ghost var caller := Caller(account, month, req);
      if Complete(Contents(), NewTx(account, month, req), limits, newId).reply == Appended {
        AppendedTables(Contents(), caller, limits, newId);
      }
      reply := RunStatements(account, month, req, limits, newId);
    }

    // The statements of submit_event in their order.
    method RunStatements(account: Uuid, month: Month, req: Request, limits: Capabilities, newId: Uuid)
        returns (reply: Reply)
      requires req.legacy
      modifies this
      ensures var done := Complete(old(Contents()), NewTx(account, month, req), limits, newId);
        && reply == done.reply
        && Contents() == if reply == Appended then Commit(old(Contents()), done) else old(Contents())
    {
      var db := Contents();
      var tx := new Transaction(account, month, req);
      ghost var done := Complete(db, tx.View(), limits, newId);
      CompleteNext(db, tx.View(), limits, newId);
      tx.LockChainRow(db);
      CompleteNext(db, tx.View(), limits, newId);
      tx.EnsureAccess();
      if tx.next == ENDED { return tx.reply; }
      CompleteNext(db, tx.View(), limits, newId);
      tx.ReplyFromTable(db);
      if tx.next == ENDED { return tx.reply; }
      reply := InsertAndCommit(tx, db, limits, newId, done);
    }

    // insert_event_in_tx: the limits here, the reads of head and sequence in ReadAndCommit, the
    // writes in WriteAndCommit.
    method InsertAndCommit(tx: Transaction, db: Db, limits: Capabilities, newId: Uuid, ghost done: Tx)
        returns (reply: Reply)
      requires db == Contents() && tx.next == LOCK_USAGE && tx.caller.req.legacy
      requires done == Complete(db, tx.View(), limits, newId)
      modifies this, tx
      ensures reply == done.reply
      ensures Contents() == if reply == Appended then Commit(old(Contents()), done) else old(Contents())
    {
      CompleteNext(db, tx.View(), limits, newId);
      tx.usage, tx.next := UsageOf(db, tx.caller.account, tx.caller.month), CHECK_LIMITS;
      CompleteNext(db, tx.View(), limits, newId);
      tx.CheckUsage(limits);
      if tx.next == ENDED { return tx.reply; }
      reply := ReadAndCommit(tx, db, limits, newId, done);
    }

    method ReadAndCommit(tx: Transaction, db: Db, limits: Capabilities, newId: Uuid, ghost done: Tx)
        returns (reply: Reply)
      requires db == Contents() && tx.next == READ_HEAD && tx.caller.req.legacy
      requires done == Complete(db, tx.View(), limits, newId)
      modifies this, tx
      ensures reply == done.reply
      ensures Contents() == if reply == Appended then Commit(old(Contents()), done) else old(Contents())
    {
      CompleteNext(db, tx.View(), limits, newId);
      tx.ReadParent(db);
      CompleteNext(db, tx.View(), limits, newId);
      tx.ReadNextSequence(db, newId);
      if tx.next == ENDED { return tx.reply; }
      reply := WriteAndCommit(tx, db, limits, newId, done);
    }

    method WriteAndCommit(tx: Transaction, db: Db, limits: Capabilities, newId: Uuid, ghost done: Tx)
        returns (reply: Reply)
      requires db == Contents() && tx.next == INSERT
      requires done == Complete(db, tx.View(), limits, newId)
      modifies this, tx
      ensures reply == done.reply
      ensures Contents() == if reply == Appended then Commit(old(Contents()), done) else old(Contents())
    {
      CompleteNext(db, tx.View(), limits, newId);
      tx.InsertRow(db);
      if tx.next == ENDED { return tx.reply; }
      CompleteNext(db, tx.View(), limits, newId);
      tx.MoveChainHead();
      CompleteNext(db, tx.View(), limits, newId);
      tx.BumpCounters();
      if tx.next == ENDED { return tx.reply; }
      reply := SignAndCommit(tx, db, limits, newId, done);
    }

    method SignAndCommit(tx: Transaction, db: Db, limits: Capabilities, newId: Uuid, ghost done: Tx)
        returns (reply: Reply)
      requires db == Contents() && tx.next == SIGN
      requires done == Complete(db, tx.View(), limits, newId)
      modifies this, tx
      ensures reply == Appended == done.reply
      ensures Contents() == Commit(old(Contents()), done)
    {
      CompleteNext(db, tx.View(), limits, newId);
      tx.signed, tx.next := UpTo(History(db, tx.caller.req.chain) + [tx.event], tx.event.sequence), COMMIT;
      CompleteNext(db, tx.View(), limits, newId);
      chains := chains[tx.caller.req.chain := tx.row];
      events := events + [EventRec(tx.caller.req.chain, tx.caller.req.key, tx.event)];
      usage := usage[(tx.caller.account, tx.caller.month) := tx.usage];
      tx.next, tx.reply := ENDED, Appended;
      reply := tx.reply;
    }
  }
}
