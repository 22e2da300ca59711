/**
 * Percent coding and the hand-off of the desktop token (evident-gui-app/src/desktop_auth.rs,
 * src/api/dashboard_desktop.rs); sections 2.1 and 2.3 of RFC 3986.
 */
module PercentCoding {
  import opened Text

  const UPPER_HEX := "0123456789ABCDEF"

  predicate IsUnreserved(c: char) {
    'A' <= c <= 'Z' || 'a' <= c <= 'z' || '0' <= c <= '9' || c == '-' || c == '_' || c == '.' || c == '~'
  }

  function EncodeByte(c: char): string
    requires c as int < 256
  {
    if IsUnreserved(c) then [c] else ['%', UPPER_HEX[c as int / 16], UPPER_HEX[c as int % 16]]
  }

  function Encoded(s: string): string
    requires IsBytes(s)
  {
    if s == "" then "" else EncodeByte(s[0]) + Encoded(s[1..])
  }

  // u8::from_str_radix of two characters; a plus sign may stand before a single digit.
  function ParseHex2(a: char, b: char): Option<char> {
    if a == '+' then
      (match HexVal(b)
       case Some(v) => Some(v as char)
       case None => None)
    else HexByte(a, b)
  }

  // A byte that continues a UTF-8 character; a slice may not end before it.
  predicate IsContinuation(c: char) {
    0x80 <= c as int < 0xC0
  }

  function Prepend(s: string, rest: Option<string>): Option<string> {
    if rest.Some? then Some(s + rest.value) else None
  }

  function Plain(c: char): char {
    if c == '+' then ' ' else c
  }

  // The decoded bytes, or None where slicing the string panics.
  function Decoded(s: string): Option<string>
    decreases |s|
  {
    if s == "" then Some("")
    else if s[0] == '%' && |s| > 2 then
      if |s| > 3 && IsContinuation(s[3]) then None
      else if ParseHex2(s[1], s[2]).Some? then Prepend([ParseHex2(s[1], s[2]).value], Decoded(s[3..]))
      else Prepend("%", Decoded(s[1..]))
    else Prepend([Plain(s[0])], Decoded(s[1..]))
  }

  // ---------------------------------------------------------------- the loops

  lemma {:induction false} EncodedAppend(s: string, c: char)
    requires IsBytes(s) && c as int < 256
    ensures Encoded(s + [c]) == Encoded(s) + EncodeByte(c)
    decreases |s|
  {
    if s == "" {
      assert [c][1..] == "" && Encoded("") == "";
    } else {
      EncodedAppend(s[1..], c);
      assert (s + [c])[1..] == s[1..] + [c];
    }
  }

  method UrlEncode(s: string) returns (out: string)
    requires IsBytes(s)
    ensures out == Encoded(s)
  {
    out := "";
    for i := 0 to |s|
      invariant out == Encoded(s[..i])
    {
      EncodedAppend(s[..i], s[i]);
      assert s[..i + 1] == s[..i] + [s[i]];
      if IsUnreserved(s[i]) {
        out := out + [s[i]];
      } else {
        out := out + ['%', UPPER_HEX[s[i] as int / 16], UPPER_HEX[s[i] as int % 16]];
      }
    }
    assert s[..|s|] == s;
  }

  lemma PrependTwice(a: string, b: string, rest: Option<string>)
    ensures Prepend(a, Prepend(b, rest)) == Prepend(a + b, rest)
  {
    if rest.Some? { assert a + (b + rest.value) == a + b + rest.value; }
  }

  lemma PrependNothing(rest: Option<string>)
    ensures Prepend("", rest) == rest
  {
    if rest.Some? { assert "" + rest.value == rest.value; }
  }

  method UrlDecode(s: string) returns (r: Option<string>)
    ensures r == Decoded(s)
  {
    var i, out := 0, "";
    assert s[0..] == s;
    PrependNothing(Decoded(s));
    while i < |s|
      invariant 0 <= i <= |s|
      invariant Decoded(s) == Prepend(out, Decoded(s[i..]))
    {
      ghost var rest := s[i..];
      assert rest[0] == s[i] && rest[1..] == s[i + 1..];
      if s[i] == '%' && i + 2 < |s| {
        assert rest[1] == s[i + 1] && rest[2] == s[i + 2] && rest[3..] == s[i + 3..];
        if i + 3 < |s| && IsContinuation(s[i + 3]) { return None; }
        var v := ParseHex2(s[i + 1], s[i + 2]);
        if v.Some? {
          PrependTwice(out, [v.value], Decoded(s[i + 3..]));
          out := out + [v.value];
          i := i + 3;
          continue;
        }
        assert Plain('%') == '%';
      }
      PrependTwice(out, [Plain(s[i])], Decoded(s[i + 1..]));
      out := out + [if s[i] == '+' then ' ' else s[i]];
      i := i + 1;
    }
    assert s[i..] == "" && out + "" == out;
    return Some(out);
  }

  // ---------------------------------------------------------------- round trip

  lemma EscapeDecodes(a: char, b: char, rest: string)
    requires rest != "" ==> !IsContinuation(rest[0])
    requires ParseHex2(a, b).Some?
    ensures Decoded(['%', a, b] + rest) == Prepend([ParseHex2(a, b).value], Decoded(rest))
  {
    var s := ['%', a, b] + rest;
    assert s[0] == '%' && s[1] == a && s[2] == b && s[3..] == rest;
    assert rest != "" ==> s[3] == rest[0];
  }

  lemma EscapeOfByte(c: char)
    requires c as int < 256
    ensures ParseHex2(UPPER_HEX[c as int / 16], UPPER_HEX[c as int % 16]) == Some(c)
  {
    UpperHexRoundTrip(c as int / 16);
    UpperHexRoundTrip(c as int % 16);
  }

  lemma EncodedByteDecodes(c: char, rest: string)
    requires c as int < 256 && (rest != "" ==> !IsContinuation(rest[0]))
    ensures Decoded(EncodeByte(c) + rest) == Prepend([c], Decoded(rest))
  {
    if IsUnreserved(c) {
      assert ([c] + rest)[0] == c && ([c] + rest)[1..] == rest;
    } else {
      EscapeOfByte(c);
      EscapeDecodes(UPPER_HEX[c as int / 16], UPPER_HEX[c as int % 16], rest);
    }
  }

  lemma UpperHexRoundTrip(d: nat)
    requires d < 16
    ensures HexVal(UPPER_HEX[d]) == Some(d) && UPPER_HEX[d] != '+' && IsUnreserved(UPPER_HEX[d])
  {
    assert UPPER_HEX[0] == '0' && UPPER_HEX[9] == '9' && UPPER_HEX[10] == 'A' && UPPER_HEX[15] == 'F';
  }

  predicate IsQuoted(s: string) {
    forall i | 0 <= i < |s| :: IsUnreserved(s[i]) || s[i] == '%'
  }

  lemma {:induction false} EncodedIsQuoted(s: string)
    requires IsBytes(s)
    ensures IsQuoted(Encoded(s))
    decreases |s|
  {
    if s != "" {
      EncodedIsQuoted(s[1..]);
      if !IsUnreserved(s[0]) {
        UpperHexRoundTrip(s[0] as int / 16);
        UpperHexRoundTrip(s[0] as int % 16);
      }
    }
  }

  // Main result: decoding undoes encoding, for every byte string.
  lemma {:induction false} DecodedOfEncoded(s: string)
    requires IsBytes(s)
    ensures Decoded(Encoded(s)) == Some(s)
    decreases |s|
  {
    if s != "" {
      DecodedOfEncoded(s[1..]);
      EncodedIsQuoted(s[1..]);
      EncodedByteDecodes(s[0], Encoded(s[1..]));
      assert s == [s[0]] + s[1..];
    }
  }

  // ---------------------------------------------------------------- the token

  function Query(token: string, expiresAt: string): string
    requires IsBytes(token) && IsBytes(expiresAt)
  {
    "token=" + Encoded(token) + "&expires_at=" + Encoded(expiresAt)
  }

  function AppendQuery(base: string, token: string, expiresAt: string): string
    requires IsBytes(token) && IsBytes(expiresAt)
  {
    base + (if '?' in base then "&" else "?") + Query(token, expiresAt)
  }

  function KeyAndValue(pair: string): (string, string) {
    match SplitOnce(pair, '=')
    case Some(kv) => kv
    case None => (pair, "")
  }

  datatype Extraction = Panic | NoToken | Token(token: string)

  // String::from_utf8_lossy, which leaves UTF-8 as it is.
  type Lossy = string -> string

  function ExtractFromPairs(lossy: Lossy, pairs: seq<string>): Extraction {
    if pairs == [] then NoToken
    else
      var (k, v) := KeyAndValue(pairs[0]);
      if k != "token" then ExtractFromPairs(lossy, pairs[1..])
      else
        match Decoded(v)
        case None => Panic
        case Some(bytes) =>
          if "desktop_" <= lossy(bytes) then Token(lossy(bytes)) else ExtractFromPairs(lossy, pairs[1..])
  }

  // extract_token_from_request_line
  method ExtractToken(lossy: Lossy, line: string) returns (r: Extraction)
    ensures r == Extracted(lossy, line)
  {
    var words := Words(line);
    if |words| < 2 { return NoToken; }
    var parts := SplitAll(words[1], '?');
    if |parts| < 2 { return NoToken; }
    var pairs := SplitAll(parts[1], '&');
    for i := 0 to |pairs|
      invariant ExtractFromPairs(lossy, pairs) == ExtractFromPairs(lossy, pairs[i..])
    {
      var (k, v) := KeyAndValue(pairs[i]);
      if k == "token" {
        var decoded := UrlDecode(v);
        if decoded.None? { return Panic; }
        if "desktop_" <= lossy(decoded.value) { return Token(lossy(decoded.value)); }
      }
      assert pairs[i..][1..] == pairs[i + 1..];
    }
    return NoToken;
  }

  function Extracted(lossy: Lossy, line: string): Extraction {
    var words := Words(line);
    if |words| < 2 then NoToken else FromTarget(lossy, words[1])
  }

  // The target is split at every question mark, and the second piece is read.
  function FromTarget(lossy: Lossy, target: string): Extraction {
    var parts := SplitAll(target, '?');
    if |parts| < 2 then NoToken else ExtractFromPairs(lossy, SplitAll(parts[1], '&'))
  }

  // Text that stays in one word of a request line and in one part at a question mark or a fragment.
  predicate IsClean(s: string) {
    IsGraphic(s) && '?' !in s && '#' !in s
  }

  lemma CleanConcat(a: string, b: string)
    requires IsClean(a) && IsClean(b)
    ensures IsClean(a + b)
  {
  }

  lemma CleanNames()
    ensures IsClean("token=") && IsClean("&expires_at=") && IsClean("&")
    ensures '&' !in "token=" && '&' !in "expires_at="
  {
  }

  lemma QuotedIsClean(s: string)
    requires IsQuoted(s)
    ensures IsClean(s) && '&' !in s
  {
  }

  lemma QueryIsClean(token: string, expiresAt: string)
    requires IsBytes(token) && IsBytes(expiresAt)
    ensures IsClean(Query(token, expiresAt))
  {
    EncodedIsQuoted(token);
    EncodedIsQuoted(expiresAt);
    QuotedIsClean(Encoded(token));
    QuotedIsClean(Encoded(expiresAt));
    CleanNames();
    CleanConcat("token=", Encoded(token));
    CleanConcat("token=" + Encoded(token), "&expires_at=");
    CleanConcat("token=" + Encoded(token) + "&expires_at=", Encoded(expiresAt));
  }

  lemma TokenPair(token: string)
    requires IsBytes(token)
    ensures KeyAndValue("token=" + Encoded(token)) == ("token", Encoded(token))
  {
    SplitOnceAt("token", Encoded(token), '=');
    assert "token=" + Encoded(token) == "token" + ['='] + Encoded(token);
  }

  // The two pairs of the query.
  lemma QueryPairs(token: string, expiresAt: string)
    requires IsBytes(token) && IsBytes(expiresAt)
    ensures SplitAll(Query(token, expiresAt), '&') == ["token=" + Encoded(token), "expires_at=" + Encoded(expiresAt)]
  {
    var a, b := "token=" + Encoded(token), "expires_at=" + Encoded(expiresAt);
    EncodedIsQuoted(token);
    EncodedIsQuoted(expiresAt);
    QuotedIsClean(Encoded(token));
    QuotedIsClean(Encoded(expiresAt));
    CleanNames();
    assert Query(token, expiresAt) == a + ['&'] + b;
    SplitFirst(a, b, '&');
    SplitNowhere(b, '&');
  }

  // What a browser sends of a target: a fragment stays with it (section 7.1 of RFC 9110).
  function Sent(target: string): string {
    if target == "" || target[0] == '#' then "" else [target[0]] + Sent(target[1..])
  }

  lemma {:induction false} SentWhole(target: string)
    requires '#' !in target
    ensures Sent(target) == target
  {
    if target != "" {
      SentWhole(target[1..]);
      assert target == [target[0]] + target[1..];
    }
  }

  lemma {:induction false} SentCut(target: string, more: string)
    requires '#' in target
    ensures Sent(target + more) == Sent(target)
  {
    if target[0] != '#' {
      SentCut(target[1..], more);
      assert (target + more)[1..] == target[1..] + more;
    }
  }

  // The request line for a target.
  function RequestLine(target: string): string {
    Join(["GET", Sent(target), "HTTP/1.1"])
  }

  lemma TargetIsSecond(target: string)
    requires IsGraphic(target) && '#' !in target && target != ""
    ensures Words(RequestLine(target)) == ["GET", target, "HTTP/1.1"]
  {
    SentWhole(target);
    ThreeWords("GET", target, "HTTP/1.1");
  }

  lemma ThreeWords(a: string, b: string, c: string)
    requires IsGraphic(a) && IsGraphic(b) && IsGraphic(c) && a != "" && b != "" && c != ""
    ensures Words(Join([a, b, c])) == [a, b, c]
  {
    GraphicIsWord(a);
    GraphicIsWord(b);
    GraphicIsWord(c);
    WordsOfJoin([a, b, c]);
  }

  // ---------------------------------------------------------------- the hand-off

  lemma TargetExtracted(lossy: Lossy, target: string)
    requires IsGraphic(target) && '#' !in target
    ensures Extracted(lossy, RequestLine(target)) == FromTarget(lossy, target)
  {
    if target == "" {
      NoTarget("GET", "HTTP/1.1");
      SplitNowhere("HTTP/1.1", '?');
      SplitNowhere("", '?');
    } else {
      TargetIsSecond(target);
    }
  }

  // Without a target the version is taken for it.
  lemma NoTarget(a: string, c: string)
    requires IsGraphic(a) && IsGraphic(c) && a != "" && c != ""
    ensures Words(Join([a, "", c])) == [a, c]
  {
    GraphicIsWord(a);
    GraphicIsWord(c);
    WordBeforeSpace(a, " " + c);
    WordsOfJoin([c]);
    assert Join(["", c]) == " " + c && (" " + c)[1..] == c;
  }

  // The first pair that decides does so whatever comes behind it.
  lemma {:induction false} PairsConcat(lossy: Lossy, a: seq<string>, b: seq<string>)
    ensures ExtractFromPairs(lossy, a + b) ==
      if ExtractFromPairs(lossy, a).NoToken? then ExtractFromPairs(lossy, b) else ExtractFromPairs(lossy, a)
    decreases |a|
  {
    if a == [] {
      assert a + b == b;
    } else {
      PairsConcat(lossy, a[1..], b);
      assert (a + b)[0] == a[0] && (a + b)[1..] == a[1..] + b;
    }
  }

  lemma QueryYieldsToken(lossy: Lossy, token: string, expiresAt: string)
    requires IsBytes(token) && IsBytes(expiresAt) && lossy(token) == token && "desktop_" <= token
    ensures ExtractFromPairs(lossy, SplitAll(Query(token, expiresAt), '&')) == Token(token)
  {
    QueryPairs(token, expiresAt);
    TokenPair(token);
    DecodedOfEncoded(token);
  }

  lemma SplitFront(x: char, rest: seq<string>, more: seq<string>, c: char)
    requires rest != []
    ensures [""] + (rest + more) == [""] + rest + more
    ensures [[x] + (rest + more)[0]] + (rest + more)[1..] == [[x] + rest[0]] + rest[1..] + more
  {
  }

  lemma {:induction false} SplitJoins(a: string, b: string, c: char)
    ensures SplitAll(a + [c] + b, c) == SplitAll(a, c) + SplitAll(b, c)
    decreases |a|
  {
    var s := a + [c] + b;
    if a == "" {
      assert s[1..] == b;
    } else {
      SplitJoins(a[1..], b, c);
      assert s[1..] == a[1..] + [c] + b && s[0] == a[0];
      SplitFront(a[0], SplitAll(a[1..], c), SplitAll(b, c), c);
    }
  }

  lemma {:induction false} SplitSomewhere(s: string, c: char)
    ensures |SplitAll(s, c)| >= if c in s then 2 else 1
    decreases |s|
  {
    if s != "" { SplitSomewhere(s[1..], c); }
  }

  function ExtendLast(parts: seq<string>, more: string): seq<string>
    requires parts != []
  {
    parts[..|parts| - 1] + [parts[|parts| - 1] + more]
  }

  lemma ExtendBehind(x: char, rest: seq<string>, more: string)
    requires rest != []
    ensures [""] + ExtendLast(rest, more) == ExtendLast([""] + rest, more)
    ensures [[x] + ExtendLast(rest, more)[0]] + ExtendLast(rest, more)[1..] ==
      ExtendLast([[x] + rest[0]] + rest[1..], more)
  {
    if |rest| == 1 {
      assert [x] + (rest[0] + more) == [x] + rest[0] + more;
    }
  }

  // Text without the separator goes to the last piece.
  lemma {:induction false} SplitExtends(a: string, more: string, c: char)
    requires c !in more
    ensures SplitAll(a + more, c) == ExtendLast(SplitAll(a, c), more)
    decreases |a|
  {
    if a == "" {
      SplitNowhere(more, c);
      assert a + more == more && "" + more == more;
    } else {
      SplitExtends(a[1..], more, c);
      assert (a + more)[1..] == a[1..] + more && (a + more)[0] == a[0];
      ExtendBehind(a[0], SplitAll(a[1..], c), more);
    }
  }

  lemma BehindNoMark(lossy: Lossy, base: string, token: string, expiresAt: string)
    requires IsBytes(token) && IsBytes(expiresAt) && lossy(token) == token && "desktop_" <= token && '?' !in base
    ensures FromTarget(lossy, AppendQuery(base, token, expiresAt)) == Token(token)
    ensures FromTarget(lossy, base).NoToken? && |SplitAll(base, '?')| == 1
  {
    var query := Query(token, expiresAt);
    QueryIsClean(token, expiresAt);
    QueryYieldsToken(lossy, token, expiresAt);
    assert AppendQuery(base, token, expiresAt) == base + ['?'] + query;
    SplitFirst(base, query, '?');
    SplitNowhere(base, '?');
    SplitNowhere(query, '?');
  }

  lemma PiecesBehindMark(base: string, token: string, expiresAt: string)
    requires IsBytes(token) && IsBytes(expiresAt) && '?' in base
    ensures SplitAll(AppendQuery(base, token, expiresAt), '?') ==
      ExtendLast(SplitAll(base, '?'), "&" + Query(token, expiresAt))
  {
    QueryIsClean(token, expiresAt);
    assert AppendQuery(base, token, expiresAt) == base + ("&" + Query(token, expiresAt));
    SplitExtends(base, "&" + Query(token, expiresAt), '?');
  }

  lemma PairsBehindOwn(lossy: Lossy, own: string, token: string, expiresAt: string)
    requires IsBytes(token) && IsBytes(expiresAt) && lossy(token) == token && "desktop_" <= token
    ensures ExtractFromPairs(lossy, SplitAll(own + ("&" + Query(token, expiresAt)), '&')) ==
      var before := ExtractFromPairs(lossy, SplitAll(own, '&')); if before.NoToken? then Token(token) else before
  {
    var query := Query(token, expiresAt);
    assert own + ("&" + query) == own + ['&'] + query;
    SplitJoins(own, query, '&');
    PairsConcat(lossy, SplitAll(own, '&'), SplitAll(query, '&'));
    QueryYieldsToken(lossy, token, expiresAt);
  }

  // The appended pairs come behind those of the target, if they come to its second piece at all.
  lemma AppendedTarget(lossy: Lossy, base: string, token: string, expiresAt: string)
    requires IsBytes(token) && IsBytes(expiresAt) && lossy(token) == token && "desktop_" <= token
    ensures FromTarget(lossy, AppendQuery(base, token, expiresAt)) ==
      if |SplitAll(base, '?')| <= 2 && FromTarget(lossy, base).NoToken? then Token(token) else FromTarget(lossy, base)
  {
    if '?' !in base {
      BehindNoMark(lossy, base, token, expiresAt);
    } else {
      SplitSomewhere(base, '?');
      PiecesBehindMark(base, token, expiresAt);
      PairsBehindOwn(lossy, SplitAll(base, '?')[1], token, expiresAt);
    }
  }

  // A fragment hides whatever is appended.
  lemma FragmentHidesToken(lossy: Lossy, base: string, token: string, expiresAt: string)
    requires IsBytes(token) && IsBytes(expiresAt) && '#' in base
    ensures Extracted(lossy, RequestLine(AppendQuery(base, token, expiresAt))) == Extracted(lossy, RequestLine(base))
  {
    SentCut(base, (if '?' in base then "&" else "?") + Query(token, expiresAt));
    assert AppendQuery(base, token, expiresAt) == base + ((if '?' in base then "&" else "?") + Query(token, expiresAt));
  }

  // A callback from which the appended token can be read.
  predicate Receives(lossy: Lossy, base: string) {
    '#' !in base && |SplitAll(base, '?')| <= 2 && Extracted(lossy, RequestLine(base)) == NoToken
  }

  lemma AppendedIsTarget(base: string, token: string, expiresAt: string)
    requires IsGraphic(base) && '#' !in base && IsBytes(token) && IsBytes(expiresAt)
    ensures IsGraphic(AppendQuery(base, token, expiresAt)) && '#' !in AppendQuery(base, token, expiresAt)
  {
    QueryIsClean(token, expiresAt);
  }

  // Main result: the desktop takes exactly the token the server appended if the callback has no
  // fragment, at most one question mark, and an own query that yields nothing; otherwise it takes
  // what it would have taken from the callback alone.
  lemma TokenHandOff(lossy: Lossy, base: string, token: string, expiresAt: string)
    requires IsGraphic(base)
    requires IsBytes(token) && IsBytes(expiresAt) && lossy(token) == token && "desktop_" <= token
    ensures Extracted(lossy, RequestLine(AppendQuery(base, token, expiresAt))) ==
      if Receives(lossy, base) then Token(token) else Extracted(lossy, RequestLine(base))
  {
    if '#' in base {
      FragmentHidesToken(lossy, base, token, expiresAt);
    } else {
      AppendedIsTarget(base, token, expiresAt);
      TargetExtracted(lossy, base);
      TargetExtracted(lossy, AppendQuery(base, token, expiresAt));
      AppendedTarget(lossy, base, token, expiresAt);
    }
  }

  lemma SecondMark(lossy: Lossy, path: string, own: string, rest: string)
    requires IsClean(path) && IsClean(own) && IsGraphic(rest) && '#' !in rest
    ensures var base := path + ['?'] + (own + ['?'] + rest);
      && Extracted(lossy, RequestLine(base)) == ExtractFromPairs(lossy, SplitAll(own, '&'))
      && |SplitAll(base, '?')| > 2
  {
    SplitFirst(path, own + ['?'] + rest, '?');
    SplitFirst(own, rest, '?');
    TargetExtracted(lossy, path + ['?'] + (own + ['?'] + rest));
  }

  lemma {:induction false} SentUpTo(target: string, fragment: string)
    requires '#' !in target
    ensures Sent(target + ['#'] + fragment) == target
    decreases |target|
  {
    if target != "" {
      SentUpTo(target[1..], fragment);
      assert (target + ['#'] + fragment)[1..] == target[1..] + ['#'] + fragment;
      assert target == [target[0]] + target[1..];
    }
  }

  lemma OwnQuery(lossy: Lossy, path: string, own: string)
    requires IsClean(path) && IsClean(own)
    ensures Extracted(lossy, RequestLine(path + ['?'] + own)) == ExtractFromPairs(lossy, SplitAll(own, '&'))
  {
    SplitFirst(path, own, '?');
    SplitNowhere(own, '?');
    TargetExtracted(lossy, path + ['?'] + own);
  }

  lemma OwnFragment(lossy: Lossy, path: string, own: string, rest: string)
    requires IsClean(path) && IsClean(own)
    ensures Extracted(lossy, RequestLine(path + ['?'] + own + ['#'] + rest)) ==
      ExtractFromPairs(lossy, SplitAll(own, '&'))
  {
    SentUpTo(path + ['?'] + own, rest);
    SentWhole(path + ['?'] + own);
    OwnQuery(lossy, path, own);
  }

  lemma OwnToken(lossy: Lossy, path: string, other: string)
    requires IsClean(path) && IsBytes(other) && lossy(other) == other && "desktop_" <= other
    ensures Extracted(lossy, RequestLine(path + ['?'] + ("token=" + Encoded(other)))) == Token(other)
  {
    var own := "token=" + Encoded(other);
    EncodedIsQuoted(other);
    QuotedIsClean(Encoded(other));
    CleanNames();
    CleanConcat("token=", Encoded(other));
    OwnQuery(lossy, path, own);
    SplitNowhere(own, '&');
    TokenPair(other);
    DecodedOfEncoded(other);
  }

  // Three kinds of callbacks that do not receive it: with a second question mark, with a fragment,
  // and with a token of their own. The server allows all three, as it looks in front of the first
  // question mark only.
  lemma TokenIsLost(lossy: Lossy, path: string, own: string, rest: string, other: string)
    requires IsClean(path) && IsClean(own) && ExtractFromPairs(lossy, SplitAll(own, '&')) == NoToken
    requires IsGraphic(rest) && '#' !in rest
    requires IsBytes(other) && lossy(other) == other && "desktop_" <= other
    ensures var twice := path + ['?'] + (own + ['?'] + rest);
      !Receives(lossy, twice) && Extracted(lossy, RequestLine(twice)) == NoToken
    ensures var cut := path + ['?'] + own + ['#'] + rest;
      !Receives(lossy, cut) && Extracted(lossy, RequestLine(cut)) == NoToken
    ensures var taken := path + ['?'] + ("token=" + Encoded(other));
      !Receives(lossy, taken) && Extracted(lossy, RequestLine(taken)) == Token(other)
  {
    SecondMark(lossy, path, own, rest);
    OwnFragment(lossy, path, own, rest);
    OwnToken(lossy, path, other);
  }
}
