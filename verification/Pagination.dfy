/** Keyset pagination of an identity key's events (src/service/identity_dashboard.rs). */
module Pagination {
  import opened Text
  import opened Uuids
  import opened Structure
  import opened Base64

  // ---------------------------------------------------------------- decimal numbers

  function DigitsOf(n: nat): (s: string)
    ensures s != ""
  {
    if n < 10 then [(n + '0' as int) as char] else DigitsOf(n / 10) + [(n % 10 + '0' as int) as char]
  }

  predicate IsDigit(c: char) { '0' <= c <= '9' }

  function DigitsValue(s: string): Option<nat> {
    if s == "" then Some(0)
    else
      var before, last := DigitsValue(s[..|s| - 1]), s[|s| - 1];
      if before.Some? && IsDigit(last) then Some(before.value * 10 + last as int - '0' as int) else None
  }

  // Display of an i64.
  function I64Text(n: I64): string {
    if n < 0 then "-" + DigitsOf(Magnitude(n)) else DigitsOf(Magnitude(n))
  }

  function Magnitude(n: int): nat {
    if n < 0 then -n else n
  }

  // str::parse: an optional sign, at least one digit, and no overflow.
  function ParseI64(s: string): Option<I64> {
    var signed := s != "" && (s[0] == '+' || s[0] == '-');
    var digits := if signed then s[1..] else s;
    var value := DigitsValue(digits);
    if digits == "" || value.None? then None
    else
      var n: int := if signed && s[0] == '-' then 0 - value.value else value.value;
      if -I64_MAX - 1 <= n <= I64_MAX then Some(n) else None
  }

  lemma {:induction false} DigitsRoundTrip(n: nat)
    ensures DigitsValue(DigitsOf(n)) == Some(n) && forall i | 0 <= i < |DigitsOf(n)| :: IsDigit(DigitsOf(n)[i])
  {
    var s := DigitsOf(n);
    if n < 10 {
      assert s[..0] == "";
    } else {
      DigitsRoundTrip(n / 10);
      assert s[..|s| - 1] == DigitsOf(n / 10);
    }
  }

  lemma I64RoundTrip(n: I64)
    ensures ParseI64(I64Text(n)) == Some(n)
    ensures IsGraphic(I64Text(n)) && ':' !in I64Text(n)
  {
    var digits := DigitsOf(Magnitude(n));
    DigitsRoundTrip(Magnitude(n));
    assert IsDigit(digits[0]);
    if n < 0 { assert ("-" + digits)[1..] == digits; }
  }

  // ---------------------------------------------------------------- cursors

  datatype Key = Key(sequence: I64, eventId: Uuid)

  function CursorPayload(k: Key): (s: string)
    ensures IsBytes(s) && IsGraphic(s)
  {
    I64RoundTrip(k.sequence);
    UuidRoundTrip(k.eventId);
    I64Text(k.sequence) + ":" + UuidText(k.eventId)
  }

  function EncodeCursor(k: Key): string {
    Encode(CursorPayload(k))
  }

  // A payload that is not UTF-8 fails in one of the two parsers, which take ASCII only.
  function DecodeCursor(cursor: string): Option<Key> {
    match Decode(Trim(cursor))
    case None => None
    case Some(payload) =>
      match SplitOnce(payload, ':')
      case None => None
      case Some((sequence, eventId)) =>
        if ParseI64(sequence).Some? && ParseUuid(eventId).Some?
        then Some(Key(ParseI64(sequence).value, ParseUuid(eventId).value))
        else None
  }

  // Main result: a printed cursor decodes to the position it was made from, for every i64 and UUID.
  lemma CursorRoundTrip(k: Key)
    ensures DecodeCursor(EncodeCursor(k)) == Some(k)
  {
    EncodeIsGraphic(CursorPayload(k));
    TrimGraphic(EncodeCursor(k));
    DecodeOfEncode(CursorPayload(k));
    I64RoundTrip(k.sequence);
    UuidRoundTrip(k.eventId);
    SplitOnceAt(I64Text(k.sequence), UuidText(k.eventId), ':');
  }

  // ---------------------------------------------------------------- pages

  function ClampEventsLimit(limit: Option<nat>): (r: int)
    ensures 1 <= r <= 100
    ensures limit == None || limit == Some(0) ==> r == 20
    ensures limit.Some? && limit.value > 0 ==> r <= limit.value && (r == limit.value || r == 100)
  {
    if limit.None? || limit.value == 0 then 20
    else if limit.value > 100 then 100
    else limit.value
  }

  predicate Less(a: Key, b: Key) {
    a.sequence < b.sequence || (a.sequence == b.sequence && a.eventId < b.eventId)
  }

  // A key's events in the order of the query; event ids are unique.
  ghost predicate Descending(rows: seq<Key>) {
    forall i, j | 0 <= i < j < |rows| :: Less(rows[j], rows[i])
  }

  predicate After(e: Key, cursor: Option<Key>) {
    cursor.Some? ==> Less(e, cursor.value)
  }

  // The rows behind the cursor, in order.
  function Rest(rows: seq<Key>, cursor: Option<Key>): seq<Key> {
    if rows == [] then []
    else if After(rows[0], cursor) then [rows[0]] + Rest(rows[1..], cursor)
    else Rest(rows[1..], cursor)
  }

  function Take<T>(s: seq<T>, n: nat): seq<T> {
    if |s| <= n then s else s[..n]
  }

  datatype Page = Page(events: seq<Key>, next: Option<string>)
  datatype PageError = KeyNotFound | InvalidCursor

  // The page behind a position.
  function PageAt(rows: seq<Key>, limit: int, cursor: Option<Key>): Page
    requires limit >= 1
  {
    var rest := Rest(rows, cursor);
    Page(Take(rest, limit), if |rest| > limit then Some(EncodeCursor(rest[limit - 1])) else None)
  }

  function Position(cursor: Option<string>): Option<Key> {
    if cursor.Some? then DecodeCursor(cursor.value) else None
  }

  predicate IsReadable(cursor: Option<string>) {
    cursor.Some? ==> DecodeCursor(cursor.value).Some?
  }

  // The query fetches one row more than the page shows.
  method FetchPage(rows: seq<Key>, limit: int, position: Option<Key>) returns (page: Page)
    requires limit >= 1
    ensures page == PageAt(rows, limit, position)
  {
    var fetched := Take(Rest(rows, position), limit + 1);
    var hasMore := |fetched| > limit;
    var shown := if hasMore then fetched[..limit] else fetched;
    var events := [];
    for i := 0 to |shown|
      invariant events == shown[..i]
    {
      events := events + [shown[i]];
    }
    assert events == Take(Rest(rows, position), limit);
    var next: Option<string> := None;
    if hasMore {
      assert shown[|shown| - 1] == Rest(rows, position)[limit - 1];
      next := Some(EncodeCursor(shown[|shown| - 1]));
    }
    page := Page(events, next);
  }

  // list_key_events: `found` tells whether the key belongs to the account.
  method ListKeyEvents(found: bool, rows: seq<Key>, limit: int, cursor: Option<string>)
      returns (r: Result<Page, PageError>)
    requires limit >= 1
    ensures r == if !found then Err(KeyNotFound)
      else if cursor.Some? && DecodeCursor(cursor.value).None? then Err(InvalidCursor)
      else Ok(PageAt(rows, limit, if cursor.Some? then DecodeCursor(cursor.value) else None))
  {
    if !found { return Err(KeyNotFound); }
    if !IsReadable(cursor) { return Err(InvalidCursor); }
    var page := FetchPage(rows, limit, Position(cursor));
    return Ok(page);
  }

  // ---------------------------------------------------------------- following the cursors

  lemma {:induction false} RestIsSorted(rows: seq<Key>, cursor: Option<Key>)
    requires Descending(rows)
    ensures Descending(Rest(rows, cursor))
    ensures forall e :: e in Rest(rows, cursor) <==> e in rows && After(e, cursor)
    decreases |rows|
  {
    if rows != [] {
      RestIsSorted(rows[1..], cursor);
      assert rows == [rows[0]] + rows[1..];
      forall e | e in Rest(rows[1..], cursor) ensures Less(e, rows[0]) {
        var i :| 0 <= i < |rows[1..]| && rows[1..][i] == e;
      }
    }
  }

  // A visit: pages fetched one after the other, each with the cursor the one before returned, until
  // one returns none. The table may change between the fetches.
  ghost predicate IsVisit(tables: seq<seq<Key>>, limit: int, at: Option<Key>, pages: seq<Page>)
    requires limit >= 1
  {
    && |pages| == |tables| && pages != [] && pages[0] == PageAt(tables[0], limit, at)
    && (if pages[0].next.None? then |pages| == 1
        else IsReadable(pages[0].next) && IsVisit(tables[1..], limit, Position(pages[0].next), pages[1..]))
  }

  function Listed(pages: seq<Page>): seq<Key> {
    if pages == [] then [] else pages[0].events + Listed(pages[1..])
  }

  // Where the first page ends the next one begins.
  lemma NextPosition(rows: seq<Key>, limit: int, cursor: Option<Key>)
    requires limit >= 1 && |Rest(rows, cursor)| > limit
    ensures var page := PageAt(rows, limit, cursor);
      page.next.Some? && page.events == Rest(rows, cursor)[..limit]
      && IsReadable(page.next) && Position(page.next) == Some(Rest(rows, cursor)[limit - 1])
  {
    CursorRoundTrip(Rest(rows, cursor)[limit - 1]);
  }

  lemma SortedPrefix(rest: seq<Key>, n: nat)
    requires Descending(rest) && 0 < n <= |rest|
    ensures Descending(rest[..n])
    ensures forall e | e in rest :: e in rest[..n] || Less(e, rest[n - 1])
  {
    forall e | e in rest ensures e in rest[..n] || Less(e, rest[n - 1]) {
      var i :| 0 <= i < |rest| && rest[i] == e;
      if i < n { assert rest[..n][i] == e; }
    }
  }

  // What the first page shows, and what is left for the next.
  lemma FirstPage(rows: seq<Key>, limit: int, cursor: Option<Key>)
    requires limit >= 1 && Descending(rows)
    ensures var page := PageAt(rows, limit, cursor);
      Descending(page.events) && forall e | e in page.events :: After(e, cursor)
    ensures var page := PageAt(rows, limit, cursor);
      page.next.None? ==> page.events == Rest(rows, cursor)
    ensures var page := PageAt(rows, limit, cursor); page.next.Some? ==>
      |page.events| == limit && IsReadable(page.next) && Position(page.next) == Some(page.events[limit - 1])
    ensures var page := PageAt(rows, limit, cursor); page.next.Some? ==>
      forall e | e in rows && After(e, cursor) :: e in page.events || After(e, Position(page.next))
  {
    var rest := Rest(rows, cursor);
    RestIsSorted(rows, cursor);
    if |rest| > limit {
      NextPosition(rows, limit, cursor);
      SortedPrefix(rest, limit);
      forall e | e in rest[..limit] ensures e in rest { }
    }
  }

  lemma LessIsTransitive(a: Key, b: Key, c: Key)
    requires Less(a, b) && Less(b, c)
    ensures Less(a, c)
  {
  }

  // Later pages go on below the first one.
  lemma LaterPages(page: Page, limit: int, cursor: Option<Key>, later: seq<Key>)
    requires limit >= 1 && |page.events| == limit && page.next.Some?
    requires Position(page.next) == Some(page.events[limit - 1])
    requires Descending(page.events) && After(page.events[limit - 1], cursor)
    requires Descending(later) && forall e | e in later :: After(e, Position(page.next))
    requires forall e | e in page.events :: After(e, cursor)
    ensures Descending(page.events + later) && forall e | e in page.events + later :: After(e, cursor)
  {
    var all, last := page.events + later, page.events[limit - 1];
    forall i, j | 0 <= i < j < |all| ensures Less(all[j], all[i]) {
      if i < limit <= j {
        assert all[j] in later && Less(all[j], last);
        if i < limit - 1 { LessIsTransitive(all[j], last, all[i]); }
      }
    }
  }

  // A visit is its first page and, unless that is the last, a visit behind it.
  lemma VisitSteps(tables: seq<seq<Key>>, limit: int, at: Option<Key>, pages: seq<Page>)
    requires limit >= 1 && IsVisit(tables, limit, at, pages)
    ensures pages[0] == PageAt(tables[0], limit, at)
    ensures pages[0].next.None? ==> Listed(pages) == pages[0].events
    ensures pages[0].next.Some? ==>
      && IsVisit(tables[1..], limit, Position(pages[0].next), pages[1..])
      && Listed(pages) == pages[0].events + Listed(pages[1..])
  {
    if pages[0].next.None? { assert pages[1..] == [] && pages[0].events + [] == pages[0].events; }
  }

  // Main result: whatever happens to the table between the fetches, a visit lists its events in
  // strictly descending order, so none of them twice.
  lemma {:induction false} VisitsDescend(tables: seq<seq<Key>>, limit: int, at: Option<Key>, pages: seq<Page>)
    requires limit >= 1 && IsVisit(tables, limit, at, pages)
    requires forall i | 0 <= i < |tables| :: Descending(tables[i])
    ensures Descending(Listed(pages)) && forall e | e in Listed(pages) :: After(e, at)
    decreases |pages|
  {
    VisitSteps(tables, limit, at, pages);
    FirstPage(tables[0], limit, at);
    if pages[0].next.Some? {
      VisitsDescend(tables[1..], limit, Position(pages[0].next), pages[1..]);
      assert pages[0].events[limit - 1] in pages[0].events;
      LaterPages(pages[0], limit, at, Listed(pages[1..]));
    }
  }

  // Main result: ... and it lists every event that was there at every fetch.
  lemma {:induction false} VisitsMissNothing(tables: seq<seq<Key>>, limit: int, at: Option<Key>, pages: seq<Page>,
                                             e: Key)
    requires limit >= 1 && IsVisit(tables, limit, at, pages)
    requires forall i | 0 <= i < |tables| :: Descending(tables[i])
    requires (forall i | 0 <= i < |tables| :: e in tables[i]) && After(e, at)
    ensures e in Listed(pages)
    decreases |pages|
  {
    VisitSteps(tables, limit, at, pages);
    FirstPage(tables[0], limit, at);
    assert e in tables[0];
    if pages[0].next.None? {
      RestIsSorted(tables[0], at);
    } else if e !in pages[0].events {
      VisitsMissNothing(tables[1..], limit, Position(pages[0].next), pages[1..], e);
    }
  }

  // ---------------------------------------------------------------- a table that does not change

  lemma RestSkips(rows: seq<Key>, cursor: Option<Key>, n: nat)
    requires Descending(rows) && rows != [] && 0 < n <= |Rest(rows[1..], cursor)|
    ensures var last := Rest(rows[1..], cursor)[n - 1]; Rest(rows, Some(last)) == Rest(rows[1..], Some(last))
  {
    var last := Rest(rows[1..], cursor)[n - 1];
    RestIsSorted(rows[1..], cursor);
    assert last in Rest(rows[1..], cursor);
    var i :| 0 <= i < |rows[1..]| && rows[1..][i] == last;
    assert Less(rows[i + 1], rows[0]);
  }

  lemma {:induction false} RestBehind(rows: seq<Key>, cursor: Option<Key>, n: nat)
    requires Descending(rows) && 0 < n <= |Rest(rows, cursor)|
    ensures Rest(rows, Some(Rest(rows, cursor)[n - 1])) == Rest(rows, cursor)[n..]
    decreases |rows|
  {
    var below := Rest(rows[1..], cursor);
    if !After(rows[0], cursor) {
      RestBehind(rows[1..], cursor, n);
      RestSkips(rows, cursor, n);
    } else if n == 1 {
      AllBelowFirst(rows);
      AllLeftBelow(rows, cursor);
      assert ([rows[0]] + below)[1..] == below;
    } else {
      RestBehind(rows[1..], cursor, n - 1);
      RestSkips(rows, cursor, n - 1);
      assert ([rows[0]] + below)[n - 1] == below[n - 2] && ([rows[0]] + below)[n..] == below[n - 1..];
    }
  }

  // If the first row is behind the cursor so are all below it.
  lemma AllLeftBelow(rows: seq<Key>, cursor: Option<Key>)
    requires Descending(rows) && rows != [] && After(rows[0], cursor)
    ensures Rest(rows[1..], cursor) == rows[1..]
  {
    NothingHidden(rows, cursor);
    assert ([rows[0]] + Rest(rows[1..], cursor))[1..] == Rest(rows[1..], cursor);
  }

  // Behind its first row everything is left.
  lemma AllBelowFirst(rows: seq<Key>)
    requires Descending(rows) && rows != []
    ensures Rest(rows, Some(rows[0])) == rows[1..]
  {
    AllLeft(rows[1..], Some(rows[0]));
  }

  lemma {:induction false} AllLeft(rows: seq<Key>, cursor: Option<Key>)
    requires forall e | e in rows :: After(e, cursor)
    ensures Rest(rows, cursor) == rows
    decreases |rows|
  {
    if rows != [] {
      assert rows[0] in rows;
      AllLeft(rows[1..], cursor);
    }
  }

  // If the first row is behind the cursor all rows are.
  lemma NothingHidden(rows: seq<Key>, cursor: Option<Key>)
    requires Descending(rows)
    ensures rows != [] && After(rows[0], cursor) ==> Rest(rows, cursor) == rows
  {
    if rows != [] && After(rows[0], cursor) {
      forall e | e in rows ensures After(e, cursor) {
        var i :| 0 <= i < |rows| && rows[i] == e;
        if i > 0 && cursor.Some? { LessIsTransitive(rows[i], rows[0], cursor.value); }
      }
      AllLeft(rows, cursor);
    }
  }

  // max(1, ceil(n / limit))
  function PageCount(n: nat, limit: int): nat
    requires limit >= 1
  {
    if n <= limit then 1 else 1 + PageCount(n - limit, limit)
  }

  lemma {:induction false} PageCountIsCeiling(n: nat, limit: int)
    requires limit >= 1
    ensures var p := PageCount(n, limit); p >= 1 && (p - 1) * limit < (if n == 0 then 1 else n) <= p * limit
    decreases n
  {
    if n > limit {
      PageCountIsCeiling(n - limit, limit);
      var p := PageCount(n - limit, limit);
      assert p * limit == (p - 1) * limit + limit && (p + 1) * limit == p * limit + limit;
    }
  }

  function Same(rows: seq<Key>, n: nat): (tables: seq<seq<Key>>)
    ensures |tables| == n
  {
    seq(n, _ => rows)
  }

  lemma SameTail(rows: seq<Key>, n: nat)
    requires n > 0
    ensures Same(rows, n)[0] == rows && Same(rows, n)[1..] == Same(rows, n - 1)
  {
  }

  // The first page of a visit over a fixed table, and the position behind it.
  lemma FixedVisitSteps(rows: seq<Key>, limit: int, at: Option<Key>, pages: seq<Page>) returns (next: Option<Key>)
    requires limit >= 1 && Descending(rows) && IsVisit(Same(rows, |pages|), limit, at, pages)
    ensures var rest := Rest(rows, at); |rest| <= limit ==> |pages| == 1 && Listed(pages) == rest
    ensures var rest := Rest(rows, at); |rest| > limit ==>
      && IsVisit(Same(rows, |pages[1..]|), limit, next, pages[1..])
      && Listed(pages) == rest[..limit] + Listed(pages[1..]) && Rest(rows, next) == rest[limit..]
  {
    SameTail(rows, |pages|);
    VisitSteps(Same(rows, |pages|), limit, at, pages);
    next := at;
    if |Rest(rows, at)| > limit {
      NextPosition(rows, limit, at);
      RestBehind(rows, at, limit);
      next := Position(pages[0].next);
    }
  }

  lemma Slices<T>(s: seq<T>, n: nat)
    requires n <= |s|
    ensures s[..n] + s[n..] == s
  {
  }

  lemma {:induction false} FixedVisitLists(rows: seq<Key>, limit: int, at: Option<Key>, pages: seq<Page>)
    requires limit >= 1 && Descending(rows) && IsVisit(Same(rows, |pages|), limit, at, pages)
    ensures Listed(pages) == Rest(rows, at)
    decreases |pages|
  {
    var next := FixedVisitSteps(rows, limit, at, pages);
    if |Rest(rows, at)| > limit {
      FixedVisitLists(rows, limit, next, pages[1..]);
      Slices(Rest(rows, at), limit);
    }
  }

  lemma {:induction false} FixedVisitCounts(rows: seq<Key>, limit: int, at: Option<Key>, pages: seq<Page>, n: nat)
    requires limit >= 1 && Descending(rows) && IsVisit(Same(rows, |pages|), limit, at, pages) && n == |Rest(rows, at)|
    ensures |pages| == PageCount(n, limit)
    decreases |pages|
  {
    var next := FixedVisitSteps(rows, limit, at, pages);
    if n > limit { FixedVisitCounts(rows, limit, next, pages[1..], n - limit); }
  }

  // Main result: over a fixed table every visit that follows the cursors lists each event behind
  // its start exactly once, in order, and takes max(1, ceil(N / limit)) pages.
  lemma FixedVisit(rows: seq<Key>, limit: int, at: Option<Key>, pages: seq<Page>)
    requires limit >= 1 && Descending(rows) && IsVisit(Same(rows, |pages|), limit, at, pages)
    ensures Listed(pages) == Rest(rows, at)
    ensures |pages| == PageCount(|Rest(rows, at)|, limit)
  {
    FixedVisitLists(rows, limit, at, pages);
    FixedVisitCounts(rows, limit, at, pages, |Rest(rows, at)|);
  }

  lemma CountIsCeiling(pages: int, n: nat, limit: int)
    requires limit >= 1 && pages == PageCount(n, limit)
    ensures (pages - 1) * limit < (if n == 0 then 1 else n) <= pages * limit
  {
    PageCountIsCeiling(n, limit);
  }

  lemma FixedVisitFromStart(rows: seq<Key>, limit: int, pages: seq<Page>)
    requires limit >= 1 && Descending(rows) && IsVisit(Same(rows, |pages|), limit, None, pages)
    ensures Listed(pages) == rows
    ensures (|pages| - 1) * limit < (if |rows| == 0 then 1 else |rows|) <= |pages| * limit
  {
    FixedVisit(rows, limit, None, pages);
    AllLeft(rows, None);
    CountIsCeiling(|pages|, |rows|, limit);
  }

  // Such a visit always comes to an end.
  lemma {:induction false} VisitExists(rows: seq<Key>, limit: int, at: Option<Key>) returns (pages: seq<Page>)
    requires limit >= 1 && Descending(rows)
    ensures IsVisit(Same(rows, |pages|), limit, at, pages)
    decreases |Rest(rows, at)|
  {
    var page := PageAt(rows, limit, at);
    if page.next.None? {
      pages := [page];
    } else {
      NextPosition(rows, limit, at);
      RestBehind(rows, at, limit);
      var later := VisitExists(rows, limit, Position(page.next));
      pages := [page] + later;
      SameTail(rows, |pages|);
      assert pages[1..] == later;
    }
  }
}
