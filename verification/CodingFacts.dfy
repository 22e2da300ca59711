/** Which characters stand for which bytes in Base64 and in percent coding. */
module CodingFacts {
  import opened Text
  import opened Base64
  import opened PercentCoding
  import opened TextFacts

  // ---------------------------------------------------------------- Base64

  // The alphabet of table 1 of RFC 4648: capitals, small letters, digits, plus and slash.
  lemma AlphabetIs(v: nat, c: char)
    requires v < 64
    ensures Char64(v) == c <==>
      || ('A' <= c <= 'Z' && v == c as int - 'A' as int)
      || ('a' <= c <= 'z' && v == 26 + (c as int - 'a' as int))
      || ('0' <= c <= '9' && v == 52 + (c as int - '0' as int))
      || (c == '+' && v == 62) || (c == '/' && v == 63)
  {
  }

  // Four digits of 64 are three of 256.
  lemma SameNumber(a: nat, b: nat, c: nat)
    requires a < 256 && b < 256 && c < 256
    ensures var (p, q, r, s) := Split(a, b, c); ((p * 64 + q) * 64 + r) * 64 + s == (a * 256 + b) * 256 + c
  {
    assert a == 4 * (a / 4) + a % 4 && b == 16 * (b / 16) + b % 16 && c == 64 * (c / 64) + c % 64;
  }

  // Main result: three bytes, read as one number with the first byte highest, become the four digits
  // of that number to the base 64, the highest first.
  lemma GroupIs(a: nat, b: nat, c: nat) returns (p: nat, q: nat, r: nat, s: nat)
    requires a < 256 && b < 256 && c < 256
    ensures p < 64 && q < 64 && r < 64 && s < 64
    ensures ((p * 64 + q) * 64 + r) * 64 + s == (a * 256 + b) * 256 + c
    ensures Quad(a, b, c) == [Char64(p), Char64(q), Char64(r), Char64(s)]
  {
    var (w, x, y, z) := Split(a, b, c);
    p, q, r, s := w, x, y, z;
    SameNumber(a, b, c);
  }

  lemma ThreeInFront(x: char, y: char, z: char, rest: string)
    requires x as int < 256 && y as int < 256 && z as int < 256 && IsBytes(rest)
    ensures Encode([x, y, z] + rest) == Quad(x as int, y as int, z as int) + Encode(rest)
  {
    var s := [x, y, z] + rest;
    assert s[0] == x && s[1] == y && s[2] == z && s[3..] == rest;
  }

  lemma Regroup(s: string, t: string)
    requires |s| >= 3
    ensures s == [s[0], s[1], s[2]] + s[3..] && s + t == [s[0], s[1], s[2]] + (s[3..] + t)
  {
  }

  lemma OneGroupMore(x: char, y: char, z: char, s: string, t: string)
    requires x as int < 256 && y as int < 256 && z as int < 256 && IsBytes(s) && IsBytes(t)
    requires Encode(s + t) == Encode(s) + Encode(t)
    ensures Encode([x, y, z] + (s + t)) == Encode([x, y, z] + s) + Encode(t)
  {
    ThreeInFront(x, y, z, s);
    ThreeInFront(x, y, z, s + t);
    Associative(Quad(x as int, y as int, z as int), Encode(s), Encode(t));
  }

  lemma Associative(a: string, b: string, c: string)
    ensures a + (b + c) == a + b + c
  {
  }

  // Whole groups are encoded one by one.
  lemma {:induction false} GroupsAreEncoded(s: string, t: string)
    requires IsBytes(s) && IsBytes(t) && |s| % 3 == 0
    ensures Encode(s + t) == Encode(s) + Encode(t)
    decreases |s|
  {
    if s == "" {
      assert s + t == t && "" + Encode(t) == Encode(t);
    } else {
      GroupsAreEncoded(s[3..], t);
      Regroup(s, t);
      OneGroupMore(s[0], s[1], s[2], s[3..], t);
    }
  }

  // Of a last group of one or two bytes, filled up with zero bytes, the first two or three characters
  // are kept, and `=` fills the rest.
  lemma LastGroupIs(a: nat, b: nat, c: nat)
    requires a < 256 && b < 256 && c < 256
    ensures Encode("") == "" && Encode([a as char, b as char, c as char]) == Quad(a, b, c)
    ensures Encode([a as char]) == Quad(a, 0, 0)[..2] + "=="
    ensures Encode([a as char, b as char]) == Quad(a, b, 0)[..3] + "="
  {
    var s := [a as char, b as char, c as char];
    assert s[3..] == "" && Encode(s[3..]) == "";
    assert Quad(a, b, c) + "" == Quad(a, b, c);
  }

  // ---------------------------------------------------------------- percent coding

  // The hexadecimal digits of section 2.1 of RFC 3986, in capitals.
  function CapitalDigit(d: nat): char
    requires d < 16
  {
    if d < 10 then ('0' as int + d) as char else ('A' as int + d - 10) as char
  }

  lemma UpperHexIs(d: nat)
    requires d < 16
    ensures UPPER_HEX[d] == CapitalDigit(d)
  {
    assert UPPER_HEX[0] == '0' && UPPER_HEX[1] == '1' && UPPER_HEX[2] == '2' && UPPER_HEX[3] == '3';
    assert UPPER_HEX[4] == '4' && UPPER_HEX[5] == '5' && UPPER_HEX[6] == '6' && UPPER_HEX[7] == '7';
    assert UPPER_HEX[8] == '8' && UPPER_HEX[9] == '9' && UPPER_HEX[10] == 'A' && UPPER_HEX[11] == 'B';
    assert UPPER_HEX[12] == 'C' && UPPER_HEX[13] == 'D' && UPPER_HEX[14] == 'E' && UPPER_HEX[15] == 'F';
  }

  // Letters, digits and the four marks of section 2.3 stay; any other byte becomes an escape.
  lemma {:induction false} EncodedIs(s: string, c: char)
    requires IsBytes(s) && c as int < 256
    ensures Encoded("") == ""
    ensures 'A' <= c <= 'Z' || 'a' <= c <= 'z' || '0' <= c <= '9' || c in "-_.~" ==>
      Encoded([c] + s) == [c] + Encoded(s)
    ensures !('A' <= c <= 'Z' || 'a' <= c <= 'z' || '0' <= c <= '9' || c in "-_.~") ==>
      Encoded([c] + s) == ['%', CapitalDigit(c as int / 16), CapitalDigit(c as int % 16)] + Encoded(s)
  {
    assert ([c] + s)[1..] == s;
    UpperHexIs(c as int / 16);
    UpperHexIs(c as int % 16);
  }

  // The value of a hexadecimal digit in either case.
  predicate IsDigitOf(x: char, d: nat)
    requires d < 16
  {
    if d < 10 then x as int == '0' as int + d else x as int == 'a' as int + d - 10 || x as int == 'A' as int + d - 10
  }

  lemma ValueIs(x: char, d: nat)
    requires d < 16
    ensures HexVal(x) == Some(d) <==> IsDigitOf(x, d)
  {
  }

  lemma EscapeValue(x: char, y: char, h: nat, l: nat)
    requires h < 16 && l < 16 && IsDigitOf(x, h) && IsDigitOf(y, l)
    ensures ParseHex2(x, y) == Some((16 * h + l) as char)
  {
    ValueIs(x, h);
    ValueIs(y, l);
  }

  // An escape stands for its byte, with digits in either case.
  lemma EscapeIs(x: char, y: char, h: nat, l: nat, rest: string)
    requires h < 16 && l < 16 && IsDigitOf(x, h) && IsDigitOf(y, l)
    requires rest != "" ==> !(0x80 <= rest[0] as int < 0xC0)
    ensures Decoded(rest).None? ==> Decoded(['%', x, y] + rest) == None
    ensures Decoded(rest).Some? ==> Decoded(['%', x, y] + rest) == Some([(16 * h + l) as char] + Decoded(rest).value)
  {
    EscapeValue(x, y, h, l);
    EscapeDecodes(x, y, rest);
  }

  // Everything else: a plus stands for a space and any other character for itself. A percent sign
  // does so too with fewer than two characters behind it, or two that are no escape; with an escape
  // of a plus sign and one digit the digit counts. Where the third character behind it continues a
  // UTF-8 character there is no result.
  lemma OtherwiseIs(c: char, rest: string)
    requires c == '%' && |rest| >= 2 ==>
      !(exists h, l | 0 <= h < 16 && 0 <= l < 16 :: IsDigitOf(rest[0], h) && IsDigitOf(rest[1], l))
    ensures c == '%' && |rest| > 2 && 0x80 <= rest[2] as int < 0xC0 ==> Decoded([c] + rest) == None
    ensures !(c == '%' && |rest| > 2 && 0x80 <= rest[2] as int < 0xC0) ==>
      if c == '%' && |rest| >= 2 && rest[0] == '+' && exists d | 0 <= d < 16 :: IsDigitOf(rest[1], d) then
        forall d | 0 <= d < 16 && IsDigitOf(rest[1], d) ::
          Decoded([c] + rest) == if Decoded(rest[2..]).Some? then Some([d as char] + Decoded(rest[2..]).value) else None
      else
        Decoded([c] + rest) ==
          if Decoded(rest).Some? then Some([if c == '+' then ' ' else c] + Decoded(rest).value) else None
  {
    var s := [c] + rest;
    assert s[0] == c && s[1..] == rest;
    if c == '%' && |rest| >= 2 {
      assert s[1] == rest[0] && s[2] == rest[1] && s[3..] == rest[2..];
      assert |rest| > 2 ==> s[3] == rest[2];
      NoEscape(rest[0], rest[1]);
    }
  }

  lemma NoEscape(x: char, y: char)
    requires !(exists h, l | 0 <= h < 16 && 0 <= l < 16 :: IsDigitOf(x, h) && IsDigitOf(y, l))
    ensures ParseHex2(x, y).Some? <==> x == '+' && exists d | 0 <= d < 16 :: IsDigitOf(y, d)
    ensures forall d | 0 <= d < 16 && IsDigitOf(y, d) :: x == '+' ==> ParseHex2(x, y) == Some(d as char)
  {
    if HexVal(x).Some? { ValueIs(x, HexVal(x).value); }
    if HexVal(y).Some? { ValueIs(y, HexVal(y).value); }
    forall d | 0 <= d < 16 && IsDigitOf(y, d) ensures HexVal(y) == Some(d) { ValueIs(y, d); }
  }

  lemma {:induction false} PlusesAreSpaces(s: string)
    requires '%' !in s
    ensures Decoded(s).Some? && |Decoded(s).value| == |s|
    ensures forall i | 0 <= i < |s| :: Decoded(s).value[i] == if s[i] == '+' then ' ' else s[i]
    decreases |s|
  {
    if s != "" { PlusesAreSpaces(s[1..]); }
  }

  // ---------------------------------------------------------------- the token

  // A pair that decides: its name is `token` and its value decodes to a desktop token, or not at all.
  predicate Decides(lossy: Lossy, pair: string, r: Extraction) {
    var (k, v) := KeyAndValue(pair);
    && k == "token"
    && match Decoded(v)
       case None => r == Panic
       case Some(bytes) => "desktop_" <= lossy(bytes) && r == Token(lossy(bytes))
  }

  // Main result: the first pair that decides does, and without one there is no token.
  lemma {:induction false} FirstDecides(lossy: Lossy, pairs: seq<string>) returns (i: nat)
    ensures i <= |pairs| && forall j, r | 0 <= j < i :: !Decides(lossy, pairs[j], r)
    ensures if i < |pairs| then Decides(lossy, pairs[i], ExtractFromPairs(lossy, pairs))
      else ExtractFromPairs(lossy, pairs) == NoToken
    decreases |pairs|
  {
    i := 0;
    if pairs != [] && !Decides(lossy, pairs[0], ExtractFromPairs(lossy, pairs)) {
      i := FirstDecides(lossy, pairs[1..]);
      assert forall j | 0 < j < |pairs| :: pairs[j] == pairs[1..][j - 1];
      i := i + 1;
    }
  }

  // The name of a pair is what stands in front of its first equals sign; without one its value is empty.
  lemma PairIs(pair: string)
    ensures var (k, v) := KeyAndValue(pair);
      '=' !in k && if '=' in pair then pair == k + "=" + v else k == pair && v == ""
  {
    SplitOnceIs(pair, '=');
  }
}
