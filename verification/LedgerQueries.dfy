/** What the queries of an append return. */
module LedgerQueries {
  import opened Uuids
  import opened Merkle
  import opened LedgerModel

  lemma {:induction false} HasIdIff(events: seq<EventRec>, id: Uuid)
    ensures HasId(events, id) <==> exists i | 0 <= i < |events| :: events[i].row.eventId == id
    decreases |events|
  {
    if events != [] {
      var n := |events| - 1;
      HasIdIff(events[..n], id);
      assert forall i | 0 <= i < n :: events[..n][i] == events[i];
      if i :| 0 <= i < n && events[i].row.eventId == id { assert events[..n][i].row.eventId == id; }
    }
  }

  predicate Carries(e: EventRec, chain: Uuid, key: string) {
    e.chain == chain && e.key == key
  }

  // The last event of the chain with the key, if there is one.
  lemma {:induction false} FindKeyIs(events: seq<EventRec>, chain: Uuid, key: string)
    ensures var found := FindKey(events, chain, key);
      && (found.None? ==> forall i | 0 <= i < |events| :: !Carries(events[i], chain, key))
      && (found.Some? ==> exists i | 0 <= i < |events| :: events[i] == found.value && Carries(events[i], chain, key)
                            && forall j | i < j < |events| :: !Carries(events[j], chain, key))
    decreases |events|
  {
    if events != [] {
      var n := |events| - 1;
      FindKeyIs(events[..n], chain, key);
      assert forall i | 0 <= i < n :: events[..n][i] == events[i];
      if Carries(events[n], chain, key) {
        assert events[n] == FindKey(events, chain, key).value;
      } else if FindKey(events[..n], chain, key).Some? {
        var i :| 0 <= i < n && events[..n][i] == FindKey(events[..n], chain, key).value
          && Carries(events[..n][i], chain, key) && forall j | i < j < n :: !Carries(events[..n][j], chain, key);
        forall j | i < j < |events| ensures !Carries(events[j], chain, key) {
          if j < n { assert events[..n][j] == events[j]; }
        }
        assert events[i] == FindKey(events, chain, key).value;
      }
    }
  }

  // The greatest sequence number, or zero where all are below.
  lemma {:induction false} MaxSequenceIs(rows: seq<EventRow>)
    ensures forall i | 0 <= i < |rows| :: rows[i].sequence <= MaxSequence(rows)
    ensures MaxSequence(rows) >= 0
    ensures MaxSequence(rows) == 0 || exists i | 0 <= i < |rows| :: rows[i].sequence == MaxSequence(rows)
    decreases |rows|
  {
    if rows != [] {
      var n := |rows| - 1;
      MaxSequenceIs(rows[..n]);
      assert forall i | 0 <= i < n :: rows[..n][i] == rows[i];
      if MaxSequence(rows[..n]) != 0 {
        var i :| 0 <= i < n && rows[..n][i].sequence == MaxSequence(rows[..n]);
        assert rows[i].sequence == MaxSequence(rows[..n]);
      }
    }
  }

  // A month without a usage row counts from zero.
  lemma UsageIs(db: Db, account: Uuid, month: Month)
    ensures (account, month) in db.usage ==> UsageOf(db, account, month) == db.usage[(account, month)]
    ensures (account, month) !in db.usage ==> UsageOf(db, account, month) == Usage(0, 0)
  {
  }

  lemma {:induction false} AboveMaximum(rows: seq<EventRow>, n: I64)
    requires forall i | 0 <= i < |rows| :: rows[i].sequence < n
    ensures !HasSequence(rows, n)
    decreases |rows|
  {
    if rows != [] { AboveMaximum(rows[..|rows| - 1], n); }
  }

  // The history of a chain is what its own events add, one after the other.
  lemma {:induction false} HistoryOfParts(a: seq<EventRec>, b: seq<EventRec>, chain: Uuid)
    ensures ChainEvents(a + b, chain) == ChainEvents(a, chain) + ChainEvents(b, chain)
    decreases |b|
  {
    if b == [] {
      assert a + b == a;
    } else {
      var n := |b| - 1;
      HistoryOfParts(a, b[..n], chain);
      assert (a + b)[..|a + b| - 1] == a + b[..n];
    }
  }

  lemma HistoryOfOne(e: EventRec, chain: Uuid)
    ensures ChainEvents([e], chain) == if e.chain == chain then [e.row] else []
  {
    assert [e][..0] == [];
  }

  // The prefix that is signed holds the rows up to the number, in order.
  lemma {:induction false} UpToOfParts(a: seq<EventRow>, b: seq<EventRow>, n: I64)
    ensures UpTo(a + b, n) == UpTo(a, n) + UpTo(b, n)
    decreases |b|
  {
    if b == [] {
      assert a + b == a;
    } else {
      UpToOfParts(a, b[..|b| - 1], n);
      assert (a + b)[..|a + b| - 1] == a + b[..|b| - 1];
    }
  }

  lemma UpToOfOne(row: EventRow, n: I64)
    ensures UpTo([row], n) == if row.sequence <= n then [row] else []
  {
    assert [row][..0] == [];
  }
}
