/** What the functions on strings mean, said without naming their parts. */
module TextFacts {
  import opened Text

  // ---------------------------------------------------------------- letters and digits

  lemma LowerIs(c: char)
    ensures Lower(c) == if 'A' <= c <= 'Z' then 'a' + (c - 'A') else c
  {
  }

  lemma LowerTextIs(s: string)
    ensures |AsciiLower(s)| == |s|
    ensures forall i | 0 <= i < |s| :: AsciiLower(s)[i] == if 'A' <= s[i] <= 'Z' then 'a' + (s[i] - 'A') else s[i]
  {
    forall i | 0 <= i < |s| ensures AsciiLower(s)[i] == if 'A' <= s[i] <= 'Z' then 'a' + (s[i] - 'A') else s[i] {
      LowerIs(s[i]);
    }
  }

  // The digits of a byte are those of the usual alphabet.
  lemma HexDigitIs(d: nat)
    requires d < 16
    ensures HexDigit(d) as int == if d < 10 then '0' as int + d else 'a' as int + d - 10
  {
    assert HEX[0] == '0' && HEX[1] == '1' && HEX[2] == '2' && HEX[3] == '3' && HEX[4] == '4' && HEX[5] == '5';
    assert HEX[6] == '6' && HEX[7] == '7' && HEX[8] == '8' && HEX[9] == '9' && HEX[10] == 'a' && HEX[11] == 'b';
    assert HEX[12] == 'c' && HEX[13] == 'd' && HEX[14] == 'e' && HEX[15] == 'f';
  }

  lemma DigitSpelling(x: char, d: nat)
    requires d < 16
    ensures HexVal(x) == Some(d) <==> Lower(x) == HexDigit(d)
  {
    HexDigitIs(d);
  }

  lemma TwoDigits(h: nat, l: nat, n: nat)
    requires h < 16 && l < 16
    ensures 16 * h + l == n <==> h == n / 16 && l == n % 16
  {
  }

  lemma HexByteSpelling(x: char, y: char, c: char)
    requires c as int < 256
    ensures HexByte(x, y) == Some(c) <==> Lower(x) == HexDigit(c as int / 16) && Lower(y) == HexDigit(c as int % 16)
  {
    DigitSpelling(x, c as int / 16);
    DigitSpelling(y, c as int % 16);
    match (HexVal(x), HexVal(y))
    case (Some(h), Some(l)) =>
      TwoDigits(h, l, c as int);
      assert HexByte(x, y) == Some(c) <==> 16 * h + l == c as int;
    case _ =>
      assert HexByte(x, y) == None;
  }

  // A text decodes to a byte string exactly if it is its encoding in letters of any case.
  lemma {:induction false} HexSpelling(s: string, b: string)
    requires IsBytes(b)
    ensures HexDecode(s) == Some(b) <==> AsciiLower(s) == HexEncode(b)
    decreases |s|
  {
    if |s| >= 2 && b != "" {
      HexSpelling(s[2..], b[1..]);
      HexByteSpelling(s[0], s[1], b[0]);
      LowerTwo(s);
      HexFirst(b);
      PairsEqual(Lower(s[0]), Lower(s[1]), AsciiLower(s[2..]),
                 HexDigit(b[0] as int / 16), HexDigit(b[0] as int % 16), HexEncode(b[1..]));
      DecodeFirst(s, b);
    } else if |s| >= 2 {
      assert |AsciiLower(s)| > 0;
    }
  }

  lemma LowerTwo(s: string)
    requires |s| >= 2
    ensures AsciiLower(s) == [Lower(s[0]), Lower(s[1])] + AsciiLower(s[2..])
  {
  }

  lemma HexFirst(b: string)
    requires IsBytes(b) && b != ""
    ensures HexEncode(b) == [HexDigit(b[0] as int / 16), HexDigit(b[0] as int % 16)] + HexEncode(b[1..])
  {
  }

  lemma PairsEqual(a: char, b: char, s: string, c: char, d: char, t: string)
    ensures [a, b] + s == [c, d] + t <==> a == c && b == d && s == t
  {
    assert ([a, b] + s)[0] == a && ([a, b] + s)[1] == b && ([a, b] + s)[2..] == s;
    assert ([c, d] + t)[0] == c && ([c, d] + t)[1] == d && ([c, d] + t)[2..] == t;
  }

  lemma DecodeFirst(s: string, b: string)
    requires |s| >= 2 && b != ""
    ensures HexDecode(s) == Some(b) <==> HexByte(s[0], s[1]) == Some(b[0]) && HexDecode(s[2..]) == Some(b[1..])
  {
    assert b == [b[0]] + b[1..];
    match (HexByte(s[0], s[1]), HexDecode(s[2..]))
    case (Some(c), Some(rest)) => assert ([c] + rest)[0] == c && ([c] + rest)[1..] == rest;
    case _ =>
  }

  // ---------------------------------------------------------------- white space

  // UTF-8 (section 3 of RFC 3629).
  function Utf8(cp: nat): string
    requires cp < 0x110000
  {
    if cp < 0x80 then [cp as char]
    else if cp < 0x800 then [(0xC0 + cp / 64) as char, (0x80 + cp % 64) as char]
    else if cp < 0x10000 then [(0xE0 + cp / 4096) as char, (0x80 + cp / 64 % 64) as char, (0x80 + cp % 64) as char]
    else [(0xF0 + cp / 262144) as char, (0x80 + cp / 4096 % 64) as char, (0x80 + cp / 64 % 64) as char,
          (0x80 + cp % 64) as char]
  }

  // The code points with the property White_Space.
  predicate IsWhiteSpace(cp: nat) {
    || 0x9 <= cp <= 0xD || cp == 0x20 || cp == 0x85 || cp == 0xA0 || cp == 0x1680 || 0x2000 <= cp <= 0x200A
    || cp == 0x2028 || cp == 0x2029 || cp == 0x202F || cp == 0x205F || cp == 0x3000
  }

  // A string begins with white space exactly if its first character is such a code point.
  lemma WhiteSpaceIs(cp: nat, rest: string)
    requires cp < 0x110000
    ensures WhitePrefix(Utf8(cp) + rest) == if IsWhiteSpace(cp) then |Utf8(cp)| else 0
  {
    var s := Utf8(cp) + rest;
    if 0x80 <= cp < 0x800 {
      assert s[0] as int == 0xC0 + cp / 64 && s[1] as int == 0x80 + cp % 64;
    } else if 0x800 <= cp < 0x10000 {
      assert s[0] as int == 0xE0 + cp / 4096 && s[1] as int == 0x80 + cp / 64 % 64 && s[2] as int == 0x80 + cp % 64;
    } else if 0x10000 <= cp {
      assert s[0] as int == 0xF0 + cp / 262144;
    }
  }

  predicate AllWhite(s: string)
    decreases |s|
  {
    s == "" || (WhitePrefix(s) > 0 && AllWhite(s[WhitePrefix(s)..]))
  }

  // What comes behind a white-space character does not matter.
  lemma WhiteStays(s: string, rest: string)
    requires WhitePrefix(s) > 0
    ensures WhitePrefix(s[..WhitePrefix(s)] + rest) == WhitePrefix(s)
  {
    var t := s[..WhitePrefix(s)] + rest;
    assert forall i | 0 <= i < WhitePrefix(s) :: t[i] == s[i];
  }

  lemma WhitePrefixOfPrefix(s: string, k: nat)
    requires k <= |s| && WhitePrefix(s[..k]) > 0
    ensures WhitePrefix(s) == WhitePrefix(s[..k])
  {
    assert forall i | 0 <= i < k :: s[..k][i] == s[i];
  }

  lemma {:induction false} WhiteConcat(a: string, b: string)
    requires AllWhite(a) && AllWhite(b)
    ensures AllWhite(a + b)
    decreases |a|
  {
    if a == "" {
      assert a + b == b;
    } else {
      var k := WhitePrefix(a);
      WhiteStays(a, a[k..] + b);
      assert a + b == a[..k] + (a[k..] + b);
      assert (a + b)[k..] == a[k..] + b;
      WhiteConcat(a[k..], b);
    }
  }

  lemma OneWhite(s: string)
    requires WhitePrefix(s) > 0
    ensures AllWhite(s[..WhitePrefix(s)])
  {
    WhiteStays(s, "");
    assert s[..WhitePrefix(s)] + "" == s[..WhitePrefix(s)];
    assert s[..WhitePrefix(s)][WhitePrefix(s)..] == "";
  }

  lemma CutMore(s: string, a: string, t: string)
    requires WhitePrefix(s) > 0 && s[WhitePrefix(s)..] == a + t && AllWhite(a)
    ensures s == s[..WhitePrefix(s)] + a + t && AllWhite(s[..WhitePrefix(s)] + a)
  {
    var k := WhitePrefix(s);
    OneWhite(s);
    WhiteConcat(s[..k], a);
    assert s == s[..k] + s[k..];
    assert s[..k] + (a + t) == s[..k] + a + t;
  }

  lemma {:induction false} TrimStartCuts(s: string) returns (a: string)
    ensures s == a + TrimStart(s) && AllWhite(a) && WhitePrefix(TrimStart(s)) == 0
    decreases |s|
  {
    if WhitePrefix(s) == 0 {
      a := "";
    } else {
      a := TrimStartCuts(s[WhitePrefix(s)..]);
      CutMore(s, a, TrimStart(s));
      a := s[..WhitePrefix(s)] + a;
    }
  }

  lemma SuffixIsWhite(s: string)
    requires WhiteSuffix(s) > 0
    ensures AllWhite(s[|s| - WhiteSuffix(s)..])
  {
    var t := s[|s| - WhiteSuffix(s)..];
    assert WhitePrefix(t) == |t| && t[|t|..] == "";
  }

  lemma CutMoreBehind(s: string, t: string, b: string)
    requires WhiteSuffix(s) > 0 && s[..|s| - WhiteSuffix(s)] == t + b && AllWhite(b)
    ensures s == t + (b + s[|s| - WhiteSuffix(s)..]) && AllWhite(b + s[|s| - WhiteSuffix(s)..])
  {
    var last := s[|s| - WhiteSuffix(s)..];
    SuffixIsWhite(s);
    WhiteConcat(b, last);
    assert s == s[..|s| - WhiteSuffix(s)] + last;
    assert t + b + last == t + (b + last);
  }

  lemma {:induction false} TrimEndCuts(s: string) returns (b: string)
    ensures s == TrimEnd(s) + b && AllWhite(b) && WhiteSuffix(TrimEnd(s)) == 0
    decreases |s|
  {
    if WhiteSuffix(s) == 0 {
      b := "";
    } else {
      b := TrimEndCuts(s[..|s| - WhiteSuffix(s)]);
      CutMoreBehind(s, TrimEnd(s), b);
      b := b + s[|s| - WhiteSuffix(s)..];
    }
  }

  lemma NoWhiteStart(t: string, b: string)
    requires WhitePrefix(t + b) == 0
    ensures forall k | 0 < k <= |t| :: !AllWhite(t[..k])
  {
    forall k | 0 < k <= |t| ensures !AllWhite(t[..k]) {
      assert (t + b)[..k] == t[..k];
      if WhitePrefix(t[..k]) > 0 { WhitePrefixOfPrefix(t + b, k); }
    }
  }

  // White space at the end is seen from the end.
  lemma {:induction false} WhiteEnds(s: string, k: nat)
    requires k < |s| && AllWhite(s[k..])
    ensures WhiteSuffix(s) > 0
    decreases |s| - k
  {
    var t := s[k..];
    var w := WhitePrefix(t);
    assert t[w..] == s[k + w..];
    if k + w < |s| {
      WhiteEnds(s, k + w);
    } else {
      assert 1 <= w <= 3 && s[|s| - w..] == t;
    }
  }

  lemma NoWhiteEnd(t: string)
    requires WhiteSuffix(t) == 0
    ensures forall k | 0 <= k < |t| :: !AllWhite(t[k..])
  {
    forall k | 0 <= k < |t| ensures !AllWhite(t[k..]) {
      if AllWhite(t[k..]) { WhiteEnds(t, k); }
    }
  }

  // Main result: trimming takes white space off both ends and leaves none there.
  lemma TrimIs(s: string) returns (a: string, b: string)
    ensures s == a + (Trim(s) + b) && AllWhite(a) && AllWhite(b)
    ensures forall k | 0 < k <= |Trim(s)| :: !AllWhite(Trim(s)[..k])
    ensures forall k | 0 <= k < |Trim(s)| :: !AllWhite(Trim(s)[k..])
  {
    a := TrimStartCuts(s);
    b := TrimEndCuts(TrimStart(s));
    NoWhiteStart(Trim(s), b);
    NoWhiteEnd(Trim(s));
  }

  // Nothing is left to trim.
  lemma TrimIdempotent(s: string)
    ensures Trim(Trim(s)) == Trim(s)
  {
    var a, b := TrimIs(s);
    var c, d := TrimIs(Trim(s));
    NoCut(Trim(s), c, Trim(Trim(s)), d);
  }

  lemma NoCut(t: string, c: string, u: string, d: string)
    requires t == c + (u + d) && AllWhite(c) && AllWhite(d)
    requires forall k | 0 < k <= |t| :: !AllWhite(t[..k])
    requires forall k | 0 <= k < |t| :: !AllWhite(t[k..])
    ensures u == t
  {
    assert t[..|c|] == c && t[|c + u|..] == d;
    if c == "" && d == "" { assert c + (u + d) == u; }
  }

  // The text without its white space.
  function NonWhite(s: string): string
    decreases |s|
  {
    if s == "" then ""
    else if WhitePrefix(s) > 0 then NonWhite(s[WhitePrefix(s)..])
    else [s[0]] + NonWhite(s[1..])
  }

  function Concat(ws: seq<string>): string {
    if ws == [] then "" else ws[0] + Concat(ws[1..])
  }

  lemma WordParts(s: string)
    requires s != "" && WhitePrefix(s) == 0
    ensures var k := WordLength(s[1..]);
      s[..WordLength(s)] == [s[0]] + s[1..][..k] && s[WordLength(s)..] == s[1..][k..]
  {
  }

  lemma {:induction false} WordIsNonWhite(s: string)
    ensures NonWhite(s) == s[..WordLength(s)] + NonWhite(s[WordLength(s)..])
    decreases |s|
  {
    if s != "" && WhitePrefix(s) == 0 {
      WordIsNonWhite(s[1..]);
      WordParts(s);
    } else {
      assert s[..0] == "" && s[0..] == s;
    }
  }

  // Splitting at white space loses nothing else.
  lemma {:induction false} WordsLoseNothing(s: string)
    ensures Concat(Words(s)) == NonWhite(s)
    decreases |s|
  {
    if s != "" {
      if WhitePrefix(s) > 0 {
        WordsLoseNothing(s[WhitePrefix(s)..]);
      } else {
        var k := WordLength(s);
        WordsLoseNothing(s[k..]);
        WordIsNonWhite(s);
        assert Words(s)[1..] == Words(s[k..]);
      }
    }
  }

  // ---------------------------------------------------------------- splitting

  function JoinWith(parts: seq<string>, c: char): string
    requires parts != []
  {
    if |parts| == 1 then parts[0] else parts[0] + [c] + JoinWith(parts[1..], c)
  }

  lemma {:induction false} JoinIs(ws: seq<string>)
    requires ws != []
    ensures Join(ws) == JoinWith(ws, ' ')
    decreases |ws|
  {
    if |ws| > 1 {
      JoinIs(ws[1..]);
      assert ws[0] + " " + Join(ws[1..]) == ws[0] + [' '] + Join(ws[1..]);
    }
  }

  // The parts hold no separator, and joined by it they are the text again.
  lemma {:induction false} SplitAllIs(s: string, c: char)
    ensures JoinWith(SplitAll(s, c), c) == s
    ensures forall p | p in SplitAll(s, c) :: c !in p
    decreases |s|
  {
    if s != "" {
      var rest := SplitAll(s[1..], c);
      SplitAllIs(s[1..], c);
      assert s == [s[0]] + s[1..];
      if s[0] == c {
        assert ([""] + rest)[1..] == rest;
      } else {
        var parts := [[s[0]] + rest[0]] + rest[1..];
        assert parts[1..] == rest[1..];
        forall p | p in parts ensures c !in p {
          if p == [s[0]] + rest[0] { assert rest[0] in rest; } else { assert p in rest; }
        }
      }
    }
  }

  // The text in front of the first separator and the text behind it.
  lemma {:induction false} SplitOnceIs(s: string, c: char)
    ensures SplitOnce(s, c).None? <==> c !in s
    ensures SplitOnce(s, c).Some? ==>
      var (a, b) := SplitOnce(s, c).value; s == a + [c] + b && c !in a
    decreases |s|
  {
    if s != "" {
      SplitOnceIs(s[1..], c);
      assert s == [s[0]] + s[1..];
    }
  }
}
