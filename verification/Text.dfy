/**
 * Rust strings and byte buffers. Both are Dafny strings here: one char stands for one byte,
 * so lengths, concatenation and comparison are those of the UTF-8 bytes.
 */
module Text {
  datatype Option<+T> = None | Some(value: T)

  predicate IsBytes(s: string) {
    forall i | 0 <= i < |s| :: s[i] as int < 256
  }

  // ---------------------------------------------------------------- hexadecimal

  const HEX := "0123456789abcdef"

  function HexDigit(d: nat): (c: char)
    requires d < 16
  {
    HEX[d]
  }

  function HexVal(c: char): (d: Option<nat>)
    ensures d.Some? ==> d.value < 16
  {
    if '0' <= c <= '9' then Some(c as int - '0' as int)
    else if 'a' <= c <= 'f' then Some(c as int - 'a' as int + 10)
    else if 'A' <= c <= 'F' then Some(c as int - 'A' as int + 10)
    else None
  }

  predicate IsLowerHex(c: char) {
    '0' <= c <= '9' || 'a' <= c <= 'f'
  }

  lemma HexDigitRoundTrip(d: nat)
    requires d < 16
    ensures HexVal(HexDigit(d)) == Some(d) && IsLowerHex(HexDigit(d))
  {
    assert HEX[0] == '0' && HEX[9] == '9' && HEX[10] == 'a' && HEX[15] == 'f';
  }

  // The byte written by two hexadecimal digits.
  function HexByte(hi: char, lo: char): Option<char> {
    match (HexVal(hi), HexVal(lo))
    case (Some(h), Some(l)) => Some((16 * h + l) as char)
    case _ => None
  }

  lemma HexByteRoundTrip(c: char)
    requires c as int < 256
    ensures HexByte(HexDigit(c as int / 16), HexDigit(c as int % 16)) == Some(c)
  {
    HexDigitRoundTrip(c as int / 16);
    HexDigitRoundTrip(c as int % 16);
  }

  // hex::encode
  function HexEncode(s: string): (r: string)
    requires IsBytes(s)
    ensures |r| == 2 * |s|
  {
    if s == "" then "" else [HexDigit(s[0] as int / 16), HexDigit(s[0] as int % 16)] + HexEncode(s[1..])
  }

  // hex::decode: None on an odd length or a character that is no hex digit.
  function HexDecode(s: string): (r: Option<string>)
  {
    if s == "" then Some("")
    else if |s| == 1 then None
    else match (HexByte(s[0], s[1]), HexDecode(s[2..]))
      case (Some(c), Some(rest)) => Some([c] + rest)
      case _ => None
  }

  lemma {:induction false} HexRoundTrip(s: string)
    requires IsBytes(s)
    ensures HexDecode(HexEncode(s)) == Some(s)
  {
    if s != "" {
      HexByteRoundTrip(s[0]);
      HexRoundTrip(s[1..]);
      assert HexEncode(s)[2..] == HexEncode(s[1..]);
      assert s == [s[0]] + s[1..];
    }
  }

  lemma {:induction false} HexIsLower(s: string)
    requires IsBytes(s)
    ensures forall i | 0 <= i < 2 * |s| :: IsLowerHex(HexEncode(s)[i])
  {
    if s != "" {
      HexDigitRoundTrip(s[0] as int / 16);
      HexDigitRoundTrip(s[0] as int % 16);
      HexIsLower(s[1..]);
      forall i | 2 <= i < 2 * |s| ensures IsLowerHex(HexEncode(s)[i]) {
        assert HexEncode(s)[i] == HexEncode(s[1..])[i - 2];
      }
    }
  }

  lemma HexIsGraphic(s: string)
    requires IsBytes(s)
    ensures IsGraphic(HexEncode(s))
  {
    HexIsLower(s);
    forall i | 0 <= i < |HexEncode(s)| ensures '!' <= HexEncode(s)[i] <= '~' {
      assert IsLowerHex(HexEncode(s)[i]);
    }
  }

  // Decoding does not tell the case of the digits, and takes nothing but digits.
  lemma {:induction false} HexDecodeLower(s: string)
    ensures HexDecode(AsciiLower(s)) == HexDecode(s)
    decreases |s|
  {
    if |s| >= 2 {
      HexDecodeLower(s[2..]);
      assert AsciiLower(s)[2..] == AsciiLower(s[2..]);
    }
  }

  lemma {:induction false} HexDecodeGraphic(s: string)
    requires HexDecode(s).Some?
    ensures IsGraphic(s)
    decreases |s|
  {
    if |s| >= 2 {
      HexDecodeGraphic(s[2..]);
      forall i | 2 <= i < |s| ensures '!' <= s[i] <= '~' {
        assert s[i] == s[2..][i - 2];
      }
    }
  }

  // to_ascii_lowercase
  function Lower(c: char): char {
    if 'A' <= c <= 'Z' then (c as int + 32) as char else c
  }

  function AsciiLower(s: string): (r: string)
    ensures |r| == |s|
  {
    seq(|s|, i requires 0 <= i < |s| => Lower(s[i]))
  }

  // ---------------------------------------------------------------- white space

  // Length of the white-space character at the start of `s`; 0 when there is none.
  function WhitePrefix(s: string): (k: nat)
    ensures k <= |s|
  {
    if |s| >= 1 && (9 <= s[0] as int <= 13 || s[0] == ' ') then 1
    else if |s| >= 2 && s[0] as int == 0xC2 && s[1] as int in {0x85, 0xA0} then 2
    else if |s| >= 3 && White3(s[0] as int, s[1] as int, s[2] as int) then 3
    else 0
  }

  // The same at the end of `s`.
  function WhiteSuffix(s: string): (k: nat)
    ensures k <= |s|
  {
    if |s| >= 1 && WhitePrefix(s[|s| - 1..]) == 1 then 1
    else if |s| >= 2 && WhitePrefix(s[|s| - 2..]) == 2 then 2
    else if |s| >= 3 && WhitePrefix(s[|s| - 3..]) == 3 then 3
    else 0
  }

  // UTF-8 of U+1680, U+2000-U+200A, U+2028, U+2029, U+202F, U+205F and U+3000.
  predicate White3(a: int, b: int, c: int) {
    || (a == 0xE1 && b == 0x9A && c == 0x80)
    || (a == 0xE2 && b == 0x80 && (0x80 <= c <= 0x8A || c in {0xA8, 0xA9, 0xAF}))
    || (a == 0xE2 && b == 0x81 && c == 0x9F)
    || (a == 0xE3 && b == 0x80 && c == 0x80)
  }

  // str::trim
  function Trim(s: string): string {
    TrimEnd(TrimStart(s))
  }

  function TrimStart(s: string): string
    decreases |s|
  {
    if WhitePrefix(s) == 0 then s else TrimStart(s[WhitePrefix(s)..])
  }

  function TrimEnd(s: string): string
    decreases |s|
  {
    if WhiteSuffix(s) == 0 then s else TrimEnd(s[..|s| - WhiteSuffix(s)])
  }

  // Printable ASCII without the space, so nothing in it is white space.
  predicate IsGraphic(s: string) {
    forall i | 0 <= i < |s| :: '!' <= s[i] <= '~'
  }

  lemma TrimGraphic(s: string)
    requires IsGraphic(s)
    ensures Trim(s) == s && Trim(s + "\n") == s
  {
    assert WhitePrefix(s) == 0 && WhiteSuffix(s) == 0;
    var t := s + "\n";
    if s == "" {
      assert t == "\n" && t[1..] == "";
    } else {
      assert t[0] == s[0] && WhitePrefix(t) == 0;
      assert t[|t| - 1..] == "\n" && WhiteSuffix(t) == 1;
      assert t[..|t| - 1] == s;
    }
  }

  // str::split_whitespace: the maximal runs without white space, in order.
  function Words(s: string): seq<string>
    decreases |s|
  {
    if s == "" then []
    else if WhitePrefix(s) > 0 then Words(s[WhitePrefix(s)..])
    else [s[..WordLength(s)]] + Words(s[WordLength(s)..])
  }

  function WordLength(s: string): (k: nat)
    ensures k <= |s|
    ensures s != "" && WhitePrefix(s) == 0 ==> k > 0
  {
    if s == "" || WhitePrefix(s) > 0 then 0 else 1 + WordLength(s[1..])
  }

  predicate IsWord(w: string) {
    w != "" && WordLength(w) == |w|
  }

  function Join(ws: seq<string>): string {
    if ws == [] then ""
    else if |ws| == 1 then ws[0]
    else ws[0] + " " + Join(ws[1..])
  }

  lemma {:induction false} WordThenSpace(w: string, rest: string)
    requires WordLength(w) == |w|
    ensures WordLength(w + " " + rest) == |w|
  {
    var t := w + " " + rest;
    if w == "" {
      assert t[0] == ' ';
    } else {
      WordThenSpace(w[1..], rest);
      assert t[1..] == w[1..] + " " + rest;
      assert WhitePrefix(w) == 0;
      assert |w| >= 2 ==> t[1] == w[1];
      assert |w| >= 3 ==> t[2] == w[2];
      assert |w| == 1 ==> t[1] == ' ';
      assert |w| == 2 ==> t[2] == ' ';
    }
  }

  lemma WordBeforeSpace(w: string, rest: string)
    requires IsWord(w)
    ensures Words(w + " " + rest) == [w] + Words(rest)
  {
    var t := w + " " + rest;
    WordThenSpace(w, rest);
    assert WhitePrefix(t) == 0;
    assert t[..|w|] == w && t[|w|..] == " " + rest;
    assert (" " + rest)[1..] == rest;
  }

  // Splitting undoes joining words with single spaces.
  lemma {:induction false} WordsOfJoin(ws: seq<string>)
    requires forall w | w in ws :: IsWord(w)
    ensures Words(Join(ws)) == ws
  {
    if |ws| == 1 {
      assert ws[0] in ws;
      assert ws[0][..|ws[0]|] == ws[0];
      assert Words(ws[0]) == [ws[0]] + Words("");
    } else if |ws| > 1 {
      assert ws[0] in ws;
      WordBeforeSpace(ws[0], Join(ws[1..]));
      WordsOfJoin(ws[1..]);
    }
  }

  lemma {:induction false} WordPrefix(s: string)
    ensures WordLength(s[..WordLength(s)]) == WordLength(s)
  {
    if s != "" && WhitePrefix(s) == 0 {
      WordPrefix(s[1..]);
      var w := s[..WordLength(s)];
      assert w[1..] == s[1..][..WordLength(s[1..])];
      assert WhitePrefix(w) == 0;
    }
  }

  lemma {:induction false} WordsAreWords(s: string)
    ensures forall w | w in Words(s) :: IsWord(w)
    decreases |s|
  {
    if s != "" {
      if WhitePrefix(s) > 0 {
        WordsAreWords(s[WhitePrefix(s)..]);
      } else {
        WordPrefix(s);
        WordsAreWords(s[WordLength(s)..]);
      }
    }
  }

  lemma {:induction false} GraphicIsWord(s: string)
    requires s != "" && IsGraphic(s)
    ensures IsWord(s)
  {
    if |s| > 1 { GraphicIsWord(s[1..]); }
  }

  // ---------------------------------------------------------------- splitting

  // str::split_once
  function SplitOnce(s: string, c: char): Option<(string, string)> {
    if s == "" then None
    else if s[0] == c then Some(("", s[1..]))
    else
      match SplitOnce(s[1..], c)
      case None => None
      case Some((a, b)) => Some(([s[0]] + a, b))
  }

  lemma {:induction false} SplitOnceAt(a: string, b: string, c: char)
    requires c !in a
    ensures SplitOnce(a + [c] + b, c) == Some((a, b))
    decreases |a|
  {
    var s := a + [c] + b;
    if a == "" {
      assert s[1..] == b;
    } else {
      SplitOnceAt(a[1..], b, c);
      assert s[1..] == a[1..] + [c] + b;
      assert a == [a[0]] + a[1..];
    }
  }

  // str::split with one character
  function SplitAll(s: string, c: char): (parts: seq<string>)
    ensures parts != []
  {
    if s == "" then [""]
    else
      var rest := SplitAll(s[1..], c);
      if s[0] == c then [""] + rest else [[s[0]] + rest[0]] + rest[1..]
  }

  lemma {:induction false} SplitNowhere(s: string, c: char)
    requires c !in s
    ensures SplitAll(s, c) == [s]
    decreases |s|
  {
    if s != "" {
      SplitNowhere(s[1..], c);
      assert s == [s[0]] + s[1..];
    }
  }

  lemma {:induction false} SplitFirst(a: string, b: string, c: char)
    requires c !in a
    ensures SplitAll(a + [c] + b, c) == [a] + SplitAll(b, c)
    decreases |a|
  {
    var s := a + [c] + b;
    if a == "" {
      assert s[1..] == b;
    } else {
      SplitFirst(a[1..], b, c);
      assert s[1..] == a[1..] + [c] + b;
      assert a == [a[0]] + a[1..];
    }
  }
}
