/** The desktop application's own check of a proof file (evident-gui-app/src/main.rs). */
module LocalChain {
  import opened Text
  import opened Uuids
  import opened Merkle
  import opened Structure
  import opened OfflineVerifier

  // ---------------------------------------------------------------- a stable sort by key

  function Insert<T>(x: T, ys: seq<T>, key: T -> int): seq<T>
    decreases |ys|
  {
    if ys == [] || key(x) <= key(ys[0]) then [x] + ys else [ys[0]] + Insert(x, ys[1..], key)
  }

  // sort_by_key
  function Sorted<T>(xs: seq<T>, key: T -> int): seq<T>
    decreases |xs|
  {
    if xs == [] then [] else Insert(xs[0], Sorted(xs[1..], key), key)
  }

  ghost predicate Ordered<T>(xs: seq<T>, key: T -> int) {
    forall i, j | 0 <= i < j < |xs| :: key(xs[i]) <= key(xs[j])
  }

  ghost predicate Increasing<T>(xs: seq<T>, key: T -> int) {
    forall i, j | 0 <= i < j < |xs| :: key(xs[i]) < key(xs[j])
  }

  lemma {:induction false} InsertElements<T>(x: T, ys: seq<T>, key: T -> int)
    ensures multiset(Insert(x, ys, key)) == multiset{x} + multiset(ys)
    decreases |ys|
  {
    if ys != [] && key(x) > key(ys[0]) {
      InsertElements(x, ys[1..], key);
      assert ys == [ys[0]] + ys[1..];
    }
  }

  // In front of elements with keys as large, an element keeps the order.
  lemma OrderedFront<T>(x: T, rest: seq<T>, key: T -> int)
    requires Ordered(rest, key) && forall i | 0 <= i < |rest| :: key(x) <= key(rest[i])
    ensures Ordered([x] + rest, key)
  {
  }

  lemma {:induction false} InsertAbove<T>(x: T, ys: seq<T>, key: T -> int, low: int)
    requires low <= key(x) && forall i | 0 <= i < |ys| :: low <= key(ys[i])
    ensures forall i | 0 <= i < |Insert(x, ys, key)| :: low <= key(Insert(x, ys, key)[i])
    decreases |ys|
  {
    if ys != [] && key(x) > key(ys[0]) { InsertAbove(x, ys[1..], key, low); }
  }

  lemma {:induction false} InsertKeepsOrder<T>(x: T, ys: seq<T>, key: T -> int)
    requires Ordered(ys, key)
    ensures Ordered(Insert(x, ys, key), key)
    decreases |ys|
  {
    if ys == [] || key(x) <= key(ys[0]) {
      OrderedFront(x, ys, key);
    } else {
      InsertKeepsOrder(x, ys[1..], key);
      InsertAbove(x, ys[1..], key, key(ys[0]));
      OrderedFront(ys[0], Insert(x, ys[1..], key), key);
    }
  }

  lemma {:induction false} SortedIsOrdered<T>(xs: seq<T>, key: T -> int)
    ensures Ordered(Sorted(xs, key), key) && multiset(Sorted(xs, key)) == multiset(xs) && |Sorted(xs, key)| == |xs|
    decreases |xs|
  {
    if xs != [] {
      SortedIsOrdered(xs[1..], key);
      InsertKeepsOrder(xs[0], Sorted(xs[1..], key), key);
      InsertElements(xs[0], Sorted(xs[1..], key), key);
      assert xs == [xs[0]] + xs[1..];
      assert |multiset(Sorted(xs, key))| == |Sorted(xs, key)| && |multiset(xs)| == |xs|;
    }
  }

  // The elements with one key, in order.
  function OfKey<T>(xs: seq<T>, key: T -> int, k: int): seq<T> {
    if xs == [] then []
    else if key(xs[0]) == k then [xs[0]] + OfKey(xs[1..], key, k)
    else OfKey(xs[1..], key, k)
  }

  lemma OfKeyFirst<T>(x: T, xs: seq<T>, key: T -> int, k: int)
    ensures OfKey([x] + xs, key, k) == if key(x) == k then [x] + OfKey(xs, key, k) else OfKey(xs, key, k)
  {
    assert ([x] + xs)[1..] == xs;
  }

  lemma {:induction false} InsertIsStable<T>(x: T, ys: seq<T>, key: T -> int, k: int)
    ensures OfKey(Insert(x, ys, key), key, k) == OfKey([x] + ys, key, k)
    decreases |ys|
  {
    OfKeyFirst(x, ys, key, k);
    if ys != [] && key(x) > key(ys[0]) {
      InsertIsStable(x, ys[1..], key, k);
      OfKeyFirst(x, ys[1..], key, k);
      OfKeyFirst(ys[0], Insert(x, ys[1..], key), key, k);
    }
  }

  // The sort is stable: elements with one key keep their order.
  lemma {:induction false} SortedIsStable<T>(xs: seq<T>, key: T -> int, k: int)
    ensures OfKey(Sorted(xs, key), key, k) == OfKey(xs, key, k)
    decreases |xs|
  {
    if xs != [] {
      SortedIsStable(xs[1..], key, k);
      InsertIsStable(xs[0], Sorted(xs[1..], key), key, k);
      OfKeyFirst(xs[0], Sorted(xs[1..], key), key, k);
    }
  }

  lemma SameFirst<T>(a: seq<T>, b: seq<T>, key: T -> int)
    requires a != [] && Ordered(a, key) && Increasing(b, key) && multiset(a) == multiset(b)
    ensures b != [] && a[0] == b[0]
  {
    assert a[0] in multiset(b);
    assert b[0] in multiset(a);
    var j :| 0 <= j < |b| && b[j] == a[0];
    var i :| 0 <= i < |a| && a[i] == b[0];
  }

  lemma Tail<T>(a: seq<T>, key: T -> int)
    requires a != []
    ensures multiset(a[1..]) == multiset(a) - multiset{a[0]} && a == [a[0]] + a[1..]
    ensures Ordered(a, key) ==> Ordered(a[1..], key)
    ensures Increasing(a, key) ==> Increasing(a[1..], key)
  {
    assert a == [a[0]] + a[1..];
  }

  // A list with increasing keys is the only ordered arrangement of its elements.
  lemma {:induction false} OnlyArrangement<T>(a: seq<T>, b: seq<T>, key: T -> int)
    requires Ordered(a, key) && Increasing(b, key) && multiset(a) == multiset(b)
    ensures a == b
    decreases |a|
  {
    if a == [] {
      assert |multiset(b)| == |b|;
    } else {
      SameFirst(a, b, key);
      Tail(a, key);
      Tail(b, key);
      OnlyArrangement(a[1..], b[1..], key);
    }
  }

  function MapAll<T, U>(xs: seq<T>, f: T -> U): (r: seq<U>)
    ensures |r| == |xs| && forall i | 0 <= i < |xs| :: r[i] == f(xs[i])
  {
    seq(|xs|, i requires 0 <= i < |xs| => f(xs[i]))
  }

  lemma {:induction false} InsertMapped<T(!new), U>(x: T, ys: seq<T>, f: T -> U, key: T -> int, mapped: U -> int)
    requires forall t :: mapped(f(t)) == key(t)
    ensures Insert(f(x), MapAll(ys, f), mapped) == MapAll(Insert(x, ys, key), f)
    decreases |ys|
  {
    if ys != [] && key(x) > key(ys[0]) {
      InsertMapped(x, ys[1..], f, key, mapped);
      assert MapAll(ys, f)[1..] == MapAll(ys[1..], f);
    }
  }

  // Sorting by a key that a map keeps commutes with the map.
  lemma {:induction false} SortMapped<T(!new), U>(xs: seq<T>, f: T -> U, key: T -> int, mapped: U -> int)
    requires forall t :: mapped(f(t)) == key(t)
    ensures Sorted(MapAll(xs, f), mapped) == MapAll(Sorted(xs, key), f)
    decreases |xs|
  {
    if xs != [] {
      SortMapped(xs[1..], f, key, mapped);
      InsertMapped(xs[0], Sorted(xs[1..], key), f, key, mapped);
      assert MapAll(xs, f)[1..] == MapAll(xs[1..], f);
    }
  }

  function LeafSequence(e: EventLeaf): int { e.sequence }
  function RowSequence(e: EventRow): int { e.sequence }

  lemma LeavesAreMapped(events: seq<EventRow>)
    ensures LeavesOf(events) == MapAll(events, LeafOf)
  {
  }

  // Sorting the leaves sorts the events they stand for.
  lemma SortLeaves(events: seq<EventRow>)
    ensures Sorted(LeavesOf(events), LeafSequence) == LeavesOf(Sorted(events, RowSequence))
  {
    LeavesAreMapped(events);
    LeavesAreMapped(Sorted(events, RowSequence));
    SortMapped(events, LeafOf, RowSequence, LeafSequence);
  }

  // ---------------------------------------------------------------- the two checks

  // `valid` is the flag shown beside an event; an invalid one carries the chain-break error.
  datatype LocalEvent = LocalEvent(sequence: I64, eventId: string, valid: bool)

  const NIL_TEXT := "00000000-0000-0000-0000-000000000000"

  function ExpectedParent(sorted: seq<EventLeaf>, i: nat): string
    requires i < |sorted|
  {
    if i == 0 then NIL_TEXT else sorted[i - 1].eventId
  }

  // What the desktop shows: the sorted events, each marked by whether it continues the one before.
  ghost predicate Shows(leaves: seq<EventLeaf>, events: seq<LocalEvent>) {
    var sorted := Sorted(leaves, LeafSequence);
    |events| == |sorted| && forall i | 0 <= i < |events| ::
      events[i] == LocalEvent(sorted[i].sequence, sorted[i].eventId, sorted[i].parentId == ExpectedParent(sorted, i))
  }

  method BuildLocalEvents(leaves: seq<EventLeaf>) returns (events: seq<LocalEvent>)
    ensures Shows(leaves, events)
    ensures var sorted := Sorted(leaves, LeafSequence);
      |events| == |sorted| && forall i | 0 <= i < |events| ::
        && events[i].sequence == sorted[i].sequence && events[i].eventId == sorted[i].eventId
        && (events[i].valid <==>
              sorted[i].parentId == if i == 0 then "00000000-0000-0000-0000-000000000000" else sorted[i - 1].eventId)
  {
    var sorted := Sorted(leaves, LeafSequence);
    events := [];
    var expectedParent := NIL_TEXT;
    for i := 0 to |sorted|
      invariant |events| == i
      invariant i < |sorted| ==> expectedParent == ExpectedParent(sorted, i)
      invariant forall j | 0 <= j < i ::
        events[j] == LocalEvent(sorted[j].sequence, sorted[j].eventId, sorted[j].parentId == ExpectedParent(sorted, j))
    {
      var chainOk := sorted[i].parentId == expectedParent;
      expectedParent := sorted[i].eventId;
      events := events + [LocalEvent(sorted[i].sequence, sorted[i].eventId, chainOk)];
    }
  }

  datatype ChainError =
    | MissingHeadEventId
    | InvalidSequence(index: nat, sequence: I64)
    | SequenceBreak(index: nat, expected: int, actual: I64)

  ghost predicate InSequence(events: seq<LocalEvent>, n: nat) {
    n <= |events| && forall i | 0 <= i < n :: events[i].sequence == i + 1
  }

  // A break is the first event out of sequence, whatever the head is.
  method ValidateChain(events: seq<LocalEvent>, head: Option<string>) returns (r: Result<(), ChainError>)
    ensures r.Ok? <==> events != [] && head.Some? && InSequence(events, |events|)
    ensures r == Err(MissingHeadEventId) <==> events == [] || (head.None? && InSequence(events, |events|))
    ensures r.Err? && !r.error.MissingHeadEventId? ==>
      InSequence(events, r.error.index) && !InSequence(events, r.error.index + 1)
      && r.error.index < |events|
      && var i := r.error.index;
         r.error == if events[i].sequence <= 0 then InvalidSequence(i, events[i].sequence)
                    else SequenceBreak(i, i + 1, events[i].sequence)
  {
    if |events| == 0 { return Err(MissingHeadEventId); }
    for index := 0 to |events|
      invariant InSequence(events, index)
    {
      if events[index].sequence <= 0 { return Err(InvalidSequence(index, events[index].sequence)); }
      var expected := index + 1;
      if events[index].sequence != expected { return Err(SequenceBreak(index, expected, events[index].sequence)); }
    }
    if head.None? { return Err(MissingHeadEventId); }
    return Ok(());
  }

  // The chain validates, given a head, and every event is shown as valid.
  ghost predicate LocallyOk(events: seq<LocalEvent>) {
    events != [] && InSequence(events, |events|) && forall i | 0 <= i < |events| :: events[i].valid
  }

  // ---------------------------------------------------------------- what they amount to

  lemma NilText()
    ensures UuidText(NIL) == NIL_TEXT
  {
    ZeroBytes(16);
    ZeroHex(16);
    NilHyphens(Repeat('0', 32));
  }

  lemma NilHyphens(zeros: string)
    requires zeros == Repeat('0', 32)
    ensures Hyphenate(zeros) == NIL_TEXT
  {
    assert zeros[..8] == "00000000" && zeros[8..12] == zeros[12..16] == zeros[16..20] == "0000";
    assert zeros[20..] == "000000000000";
  }

  function Repeat(c: char, n: nat): (s: string)
    ensures |s| == n && forall i | 0 <= i < n :: s[i] == c
  {
    seq(n, _ => c)
  }

  lemma {:induction false} ZeroBytes(n: nat)
    ensures BigEndian(0, n) == Repeat(0 as char, n)
  {
    if n > 0 { ZeroBytes(n - 1); }
  }

  lemma {:induction false} ZeroHex(n: nat)
    ensures IsBytes(Repeat(0 as char, n)) && HexEncode(Repeat(0 as char, n)) == Repeat('0', 2 * n)
  {
    if n > 0 {
      ZeroHex(n - 1);
      assert Repeat(0 as char, n)[1..] == Repeat(0 as char, n - 1);
      HexDigitRoundTrip(0);
    }
  }

  // For printed ids the comparison of texts is the comparison of ids.
  lemma SameText(u: Uuid, v: Uuid)
    ensures UuidText(u) == UuidText(v) <==> u == v
  {
    if UuidText(u) == UuidText(v) { UuidTextInjective(u, v); }
  }

  function ParentOf(rows: seq<EventRow>, i: nat): Uuid
    requires i < |rows|
  {
    if i == 0 then NIL else rows[i - 1].eventId
  }

  lemma ExpectedText(rows: seq<EventRow>, i: nat)
    requires i < |rows|
    ensures ExpectedParent(LeavesOf(rows), i) == UuidText(ParentOf(rows, i))
  {
    if i == 0 { NilText(); } else { LeafTexts(rows, i - 1); }
  }

  lemma LeafTexts(rows: seq<EventRow>, i: nat)
    requires i < |rows|
    ensures LeavesOf(rows)[i].eventId == UuidText(rows[i].eventId)
    ensures LeavesOf(rows)[i].parentId == UuidText(rows[i].parentId)
  {
  }

  lemma ParentTexts(rows: seq<EventRow>, i: nat)
    requires i < |rows|
    ensures LeavesOf(rows)[i].parentId == ExpectedParent(LeavesOf(rows), i) <==> rows[i].parentId == ParentOf(rows, i)
  {
    ExpectedText(rows, i);
    SameText(rows[i].parentId, ParentOf(rows, i));
    LeafTexts(rows, i);
  }

  lemma ShownAt(events: seq<EventRow>, shown: seq<LocalEvent>, i: nat)
    requires Shows(LeavesOf(events), shown) && i < |shown|
    ensures |shown| == |events| == |Sorted(events, RowSequence)|
    ensures var sorted := Sorted(events, RowSequence);
      shown[i].sequence == sorted[i].sequence
      && (shown[i].valid <==> sorted[i].parentId == ParentOf(sorted, i))
  {
    SortLeaves(events);
    SortedIsOrdered(events, RowSequence);
    ParentTexts(Sorted(events, RowSequence), i);
  }

  lemma SameLength(events: seq<EventRow>, shown: seq<LocalEvent>)
    requires Shows(LeavesOf(events), shown)
    ensures |shown| == |events| == |Sorted(events, RowSequence)|
  {
    SortLeaves(events);
    SortedIsOrdered(events, RowSequence);
  }

  // The shown events report of each row its number and whether it continues the one before.
  ghost predicate Reports(shown: seq<LocalEvent>, rows: seq<EventRow>) {
    |shown| == |rows| && forall i | 0 <= i < |rows| ::
      shown[i].sequence == rows[i].sequence && (shown[i].valid <==> rows[i].parentId == ParentOf(rows, i))
  }

  lemma ReportsLinks(shown: seq<LocalEvent>, rows: seq<EventRow>)
    requires Reports(shown, rows)
    ensures LocallyOk(shown) <==> rows != [] && Linked(rows)
  {
    if rows != [] && Linked(rows) {
      forall i | 0 <= i < |shown| ensures shown[i].valid && shown[i].sequence == i + 1 {
        assert rows[i].parentId == ParentOf(rows, i);
      }
    }
    if LocallyOk(shown) {
      forall i | 0 <= i < |rows| ensures rows[i].sequence == i + 1 && rows[i].parentId == ParentOf(rows, i) {
        assert shown[i].valid;
      }
      assert Numbered(rows);
      forall i | 0 < i < |rows| ensures rows[i].parentId == rows[i - 1].eventId {
        assert rows[i].parentId == ParentOf(rows, i);
      }
    }
  }

  lemma LocallyOkIsLinked(events: seq<EventRow>, shown: seq<LocalEvent>)
    requires Shows(LeavesOf(events), shown)
    ensures LocallyOk(shown) <==> events != [] && Linked(Sorted(events, RowSequence))
  {
    var sorted := Sorted(events, RowSequence);
    SameLength(events, shown);
    forall i | 0 <= i < |sorted|
      ensures shown[i].sequence == sorted[i].sequence && (shown[i].valid <==> sorted[i].parentId == ParentOf(sorted, i))
    {
      ShownAt(events, shown, i);
    }
    ReportsLinks(shown, sorted);
  }

  // Main result: the desktop's check accepts the printed events, in whatever order they are
  // listed, exactly if they can be arranged into a chain that the server's and the verifier's
  // structural check accepts.
  lemma LocalCheckIffArrangement(events: seq<EventRow>, shown: seq<LocalEvent>)
    requires Shows(LeavesOf(events), shown)
    ensures LocallyOk(shown) <==>
      exists chain: seq<EventRow> :: chain != [] && Linked(chain) && multiset(chain) == multiset(events)
  {
    var sorted := Sorted(events, RowSequence);
    SortedIsOrdered(events, RowSequence);
    LocallyOkIsLinked(events, shown);
    if chain: seq<EventRow> :| chain != [] && Linked(chain) && multiset(chain) == multiset(events) {
      LinkedIncreases(chain);
      OnlyArrangement(sorted, chain, RowSequence);
      assert |sorted| == |events|;
    }
    if events != [] && Linked(sorted) {
      assert sorted != [] && Linked(sorted) && multiset(sorted) == multiset(events);
    }
  }

  lemma LinkedIncreases(chain: seq<EventRow>)
    requires Linked(chain)
    ensures Increasing(chain, RowSequence) && Ordered(chain, RowSequence)
  {
  }

  // A file whose events are listed out of order passes here although the verifier rejects it.
  lemma OrderIsNotSeen(chain: seq<EventRow>, listed: seq<EventRow>, shown: seq<LocalEvent>)
    requires Linked(chain) && chain != [] && multiset(listed) == multiset(chain) && Shows(LeavesOf(listed), shown)
    ensures LocallyOk(shown) && (Linked(listed) <==> listed == chain)
  {
    LinkedIncreases(chain);
    SortedIsOrdered(listed, RowSequence);
    OnlyArrangement(Sorted(listed, RowSequence), chain, RowSequence);
    LocallyOkIsLinked(listed, shown);
    if Linked(listed) { LinkedIncreases(listed); OnlyArrangement(listed, chain, RowSequence); }
  }
}
