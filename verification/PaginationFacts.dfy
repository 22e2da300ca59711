/** Which texts are numbers and cursors, and what a page shows. */
module PaginationFacts {
  import opened Text
  import opened Uuids
  import opened Base64
  import opened Pagination
  import opened TextFacts

  // ---------------------------------------------------------------- decimal numbers

  function Pow10(e: nat): nat {
    if e == 0 then 1 else 10 * Pow10(e - 1)
  }

  function Zeros(k: nat): (s: string)
    ensures |s| == k
  {
    seq(k, _ => '0')
  }

  lemma ScaleDigit(c: int, p: int, v: int, last: int)
    ensures (c * p + v) * 10 + last == c * (10 * p) + (v * 10 + last)
  {
    assert c * p * 10 == c * (10 * p);
  }

  lemma ValueOfOne(c: char)
    ensures DigitsValue([c]) == if '0' <= c <= '9' then Some(c as int - '0' as int) else None
  {
    assert [c][..0] == "" && [c][0] == c;
  }

  lemma InitAndLast(c: char, s: string)
    requires s != ""
    ensures ([c] + s)[..|s|] == [c] + s[..|s| - 1] && ([c] + s)[|s|] == s[|s| - 1]
  {
  }

  // The value of a number text: its first digit counts most, and nothing but digits is taken.
  lemma {:induction false} FirstDigitCountsMost(c: char, s: string)
    ensures DigitsValue([c] + s) == if '0' <= c <= '9' && DigitsValue(s).Some?
      then Some((c as int - '0' as int) * Pow10(|s|) + DigitsValue(s).value) else None
    decreases |s|
  {
    if s == "" {
      assert [c] + s == [c];
      ValueOfOne(c);
    } else {
      var init, last := s[..|s| - 1], s[|s| - 1];
      FirstDigitCountsMost(c, init);
      InitAndLast(c, s);
      if DigitsValue(init).Some? && IsDigit(last) && IsDigit(c) {
        ScaleDigit(c as int - '0' as int, Pow10(|init|), DigitsValue(init).value, last as int - '0' as int);
      }
    }
  }

  lemma LastDigit(v: nat, c: nat)
    requires 0 < v && c < 10
    ensures DigitsOf(v * 10 + c) == DigitsOf(v) + [(c + '0' as int) as char]
  {
    assert (v * 10 + c) / 10 == v && (v * 10 + c) % 10 == c;
  }

  lemma ValueAtEnd(init: string, last: char)
    ensures DigitsValue(init + [last]).Some? <==> DigitsValue(init).Some? && '0' <= last <= '9'
    ensures DigitsValue(init + [last]).Some? ==>
      DigitsValue(init + [last]).value == DigitsValue(init).value * 10 + (last as int - '0' as int)
  {
    var s := init + [last];
    assert s[..|s| - 1] == init && s[|s| - 1] == last;
  }

  predicate IsNumberText(s: string) {
    DigitsValue(s).Some? && DigitsValue(s).value > 0 && DigitsOf(DigitsValue(s).value) == s
  }

  lemma NextNumberText(init: string, last: char)
    requires IsNumberText(init) && '0' <= last <= '9'
    ensures IsNumberText(init + [last])
  {
    ValueAtEnd(init, last);
    LastDigit(DigitsValue(init).value, last as int - '0' as int);
  }

  lemma OneDigitText(c: char)
    requires '0' < c <= '9'
    ensures IsNumberText([c])
  {
    ValueOfOne(c);
  }

  // A number text that does not begin with a zero, built up digit by digit.
  lemma {:induction false} NumberTextValue(s: string, k: nat)
    requires forall i | 0 <= i < |s| :: '0' <= s[i] <= '9'
    requires s != "" && s[0] != '0' && 1 <= k <= |s|
    ensures IsNumberText(s[..k])
    decreases k
  {
    if k == 1 {
      OneDigitText(s[0]);
      assert s[..1] == [s[0]];
    } else {
      NumberTextValue(s, k - 1);
      NextNumberText(s[..k - 1], s[k - 1]);
      assert s[..k] == s[..k - 1] + [s[k - 1]];
    }
  }

  lemma {:induction false} OnlyDigits(s: string)
    requires DigitsValue(s).Some?
    ensures forall i | 0 <= i < |s| :: '0' <= s[i] <= '9'
    decreases |s|
  {
    if s != "" { OnlyDigits(s[..|s| - 1]); }
  }

  // A printed number has no leading zero and nothing but digits.
  lemma {:induction false} NumberTextStarts(n: nat)
    ensures |DigitsOf(n)| > 1 ==> DigitsOf(n)[0] != '0'
    ensures n > 0 ==> DigitsOf(n)[0] != '0'
    ensures '0' <= DigitsOf(n)[0] <= '9'
    decreases n
  {
    if n >= 10 { NumberTextStarts(n / 10); }
  }

  // A text is the printed number exactly if it has that value and no leading zero.
  lemma NumberTextIff(s: string, n: nat)
    ensures s == DigitsOf(n) <==> s != "" && DigitsValue(s) == Some(n) && (|s| > 1 ==> s[0] != '0')
  {
    DigitsRoundTrip(n);
    NumberTextStarts(n);
    if s != "" && DigitsValue(s) == Some(n) {
      if s[0] != '0' {
        OnlyDigits(s);
        NumberTextValue(s, |s|);
        assert s[..|s|] == s;
      } else if |s| == 1 {
        ValueOfOne(s[0]);
        assert s == [s[0]];
      }
    }
  }

  lemma ZeroInFront(k: nat, rest: string)
    ensures Zeros(k + 1) + rest == ['0'] + (Zeros(k) + rest)
  {
    assert Zeros(k + 1) == ['0'] + Zeros(k);
  }

  lemma {:induction false} ZerosDoNotCount(k: nat, s: string)
    ensures DigitsValue(Zeros(k) + s) == DigitsValue(s)
    decreases k
  {
    if k == 0 {
      assert Zeros(k) + s == s;
    } else {
      ZerosDoNotCount(k - 1, s);
      ZeroInFront(k - 1, s);
      FirstDigitCountsMost('0', Zeros(k - 1) + s);
    }
  }

  lemma {:induction false} ZerosInFront(s: string, n: nat) returns (k: nat)
    requires s != "" && DigitsValue(s) == Some(n)
    ensures s == Zeros(k) + DigitsOf(n)
    decreases |s|
  {
    if |s| > 1 && s[0] == '0' {
      assert s == ['0'] + s[1..];
      FirstDigitCountsMost('0', s[1..]);
      k := ZerosInFront(s[1..], n);
      ZeroInFront(k, DigitsOf(n));
      k := k + 1;
    } else {
      NumberTextIff(s, n);
      assert Zeros(0) + DigitsOf(n) == DigitsOf(n);
      k := 0;
    }
  }

  // A sign that `n` may have, any number of zeros, and the digits of `n`.
  predicate Spelled(s: string, sign: string, k: nat, n: int) {
    && (sign == "-" || sign == "+" || sign == "") && (n < 0 ==> sign == "-") && (n > 0 ==> sign != "-")
    && s == sign + (Zeros(k) + DigitsOf(if n < 0 then -n else n))
  }

  lemma SignedParses(sign: string, digits: string, n: I64)
    requires sign == "-" || sign == "+" || sign == ""
    requires digits != "" && '0' <= digits[0] <= '9' && DigitsValue(digits).Some?
    requires n == if sign == "-" then 0 - DigitsValue(digits).value else DigitsValue(digits).value
    ensures ParseI64(sign + digits) == Some(n)
  {
    var s := sign + digits;
    if sign == "" { assert s == digits; } else { assert s[0] == sign[0] && s[1..] == digits; }
  }

  lemma SpelledParses(s: string, sign: string, k: nat, n: I64)
    requires Spelled(s, sign, k, n)
    ensures ParseI64(s) == Some(n)
  {
    var m: nat := if n < 0 then 0 - n else n;
    var digits := Zeros(k) + DigitsOf(m);
    DigitsRoundTrip(m);
    ZerosDoNotCount(k, DigitsOf(m));
    NumberTextStarts(m);
    assert digits[0] == if k > 0 then '0' else DigitsOf(m)[0];
    SignedParses(sign, digits, n);
  }

  lemma ParsedIsSpelled(s: string, n: I64) returns (sign: string, k: nat)
    requires ParseI64(s) == Some(n)
    ensures Spelled(s, sign, k, n)
  {
    var signed := s[0] == '+' || s[0] == '-';
    var digits := if signed then s[1..] else s;
    sign := if signed then s[..1] else "";
    assert s == sign + digits;
    k := ZerosInFront(digits, DigitsValue(digits).value);
  }

  // Main result: the texts of an i64 are exactly its digits behind any number of zeros and a sign;
  // a zero may have either sign.
  lemma I64TextsAre(s: string, n: I64)
    ensures ParseI64(s) == Some(n) <==> exists sign, k :: Spelled(s, sign, k, n)
    ensures n >= 0 ==> I64Text(n) == DigitsOf(n)
    ensures n < 0 ==> I64Text(n) == "-" + DigitsOf(0 - n)
  {
    if ParseI64(s) == Some(n) {
      var sign, k := ParsedIsSpelled(s, n);
      assert Spelled(s, sign, k, n);
    }
    forall sign, k | Spelled(s, sign, k, n) ensures ParseI64(s) == Some(n) {
      SpelledParses(s, sign, k, n);
    }
  }

  // ---------------------------------------------------------------- cursors

  // The two texts in a cursor.
  ghost predicate Holds(cursor: string, sequence: string, eventId: string) {
    Decode(Trim(cursor)) == Some(sequence + ":" + eventId) && ':' !in sequence
  }

  lemma CursorOf(cursor: string, sequence: string, eventId: string)
    requires Holds(cursor, sequence, eventId)
    ensures DecodeCursor(cursor) ==
      if ParseI64(sequence).Some? && ParseUuid(eventId).Some?
      then Some(Key(ParseI64(sequence).value, ParseUuid(eventId).value)) else None
  {
    assert sequence + ":" + eventId == sequence + [':'] + eventId;
    SplitOnceAt(sequence, eventId, ':');
  }

  // Main result: a cursor is read as a position exactly if it is the Base64 text, between any white
  // space, of a sequence and an event id with a colon between; what is printed is such a text.
  lemma CursorIff(cursor: string, k: Key)
    ensures DecodeCursor(cursor) == Some(k) <==> exists sequence, eventId | Holds(cursor, sequence, eventId) ::
      ParseI64(sequence) == Some(k.sequence) && ParseUuid(eventId) == Some(k.eventId)
    ensures Decode(EncodeCursor(k)) == Some(I64Text(k.sequence) + ":" + UuidText(k.eventId))
  {
    DecodeOfEncode(CursorPayload(k));
    if DecodeCursor(cursor) == Some(k) {
      var payload := Decode(Trim(cursor)).value;
      SplitOnceIs(payload, ':');
      var (sequence, eventId) := SplitOnce(payload, ':').value;
      assert payload == sequence + ":" + eventId;
      assert Holds(cursor, sequence, eventId);
    }
    forall sequence, eventId | Holds(cursor, sequence, eventId)
      && ParseI64(sequence) == Some(k.sequence) && ParseUuid(eventId) == Some(k.eventId)
      ensures DecodeCursor(cursor) == Some(k)
    {
      CursorOf(cursor, sequence, eventId);
    }
  }

  lemma TrimmedCursor(cursor: string)
    ensures DecodeCursor(Trim(cursor)) == DecodeCursor(cursor)
  {
    TrimIdempotent(cursor);
  }

  // ---------------------------------------------------------------- pages

  // Newest first: by sequence, and events of one sequence by their ids.
  ghost predicate Ordered(rows: seq<Key>) {
    forall i, j | 0 <= i < j < |rows| ::
      rows[j].sequence < rows[i].sequence || (rows[j].sequence == rows[i].sequence && rows[j].eventId < rows[i].eventId)
  }

  ghost predicate Behind(e: Key, at: Option<Key>) {
    at.None? || e.sequence < at.value.sequence || (e.sequence == at.value.sequence && e.eventId < at.value.eventId)
  }

  lemma OrderedIff(rows: seq<Key>)
    ensures Ordered(rows) <==> Descending(rows)
  {
    if Ordered(rows) {
      forall i, j | 0 <= i < j < |rows| ensures Less(rows[j], rows[i]) { }
    } else {
      var i, j :| 0 <= i < j < |rows| && !(rows[j].sequence < rows[i].sequence
        || (rows[j].sequence == rows[i].sequence && rows[j].eventId < rows[i].eventId));
      assert !Less(rows[j], rows[i]);
    }
  }

  // Main result: a page shows, newest first, the events behind its position and no others: all of
  // them, without a cursor, or as many as the limit says and the newest of them, with the cursor of
  // the last one shown.
  lemma PageIs(rows: seq<Key>, limit: int, at: Option<Key>)
    requires limit >= 1 && Ordered(rows)
    ensures var page := PageAt(rows, limit, at);
      && Ordered(page.events) && |page.events| <= limit
      && (forall e | e in page.events :: e in rows && Behind(e, at))
      && if page.next.None? then forall e | e in rows && Behind(e, at) :: e in page.events
         else
           && |page.events| == limit && DecodeCursor(page.next.value) == Some(page.events[limit - 1])
           && (forall e | e in rows && Behind(e, at) ::
                 e in page.events || Behind(e, Some(page.events[limit - 1])))
           && exists e | e in rows :: Behind(e, Some(page.events[limit - 1]))
  {
    OrderedIff(rows);
    FirstPage(rows, limit, at);
    RestIsSorted(rows, at);
    var page, rest := PageAt(rows, limit, at), Rest(rows, at);
    OrderedIff(page.events);
    forall e | e in page.events ensures e in rows && Behind(e, at) {
      assert e in rest;
      assert After(e, at);
    }
    forall e | e in rows && Behind(e, at) ensures After(e, at) { }
    if page.next.Some? {
      CursorRoundTrip(page.events[limit - 1]);
      assert rest[limit] in rest && Less(rest[limit], rest[limit - 1]);
      assert page.events[limit - 1] == rest[limit - 1];
    }
  }

  // Main result: whatever happens to the table between the fetches, the events of a visit come
  // newest first, and all behind its start.
  lemma VisitIsOrdered(tables: seq<seq<Key>>, limit: int, at: Option<Key>, pages: seq<Page>)
    requires limit >= 1 && IsVisit(tables, limit, at, pages)
    requires forall i | 0 <= i < |tables| :: Ordered(tables[i])
    ensures Ordered(Listed(pages)) && forall e | e in Listed(pages) :: Behind(e, at)
  {
    forall i | 0 <= i < |tables| ensures Descending(tables[i]) { OrderedIff(tables[i]); }
    VisitsDescend(tables, limit, at, pages);
    OrderedIff(Listed(pages));
    forall e | e in Listed(pages) ensures Behind(e, at) { assert After(e, at); }
  }
}
