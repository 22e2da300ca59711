/** Standard Base64 with canonical padding, section 4 of RFC 4648. */
module Base64 {
  import opened Text

  function Char64(v: nat): char
    requires v < 64
  {
    if v < 26 then ('A' as int + v) as char
    else if v < 52 then ('a' as int + v - 26) as char
    else if v < 62 then ('0' as int + v - 52) as char
    else if v == 62 then '+'
    else '/'
  }

  function Val64(c: char): (v: Option<nat>)
    ensures v.Some? ==> v.value < 64
  {
    if 'A' <= c <= 'Z' then Some(c as int - 'A' as int)
    else if 'a' <= c <= 'z' then Some(c as int - 'a' as int + 26)
    else if '0' <= c <= '9' then Some(c as int - '0' as int + 52)
    else if c == '+' then Some(62)
    else if c == '/' then Some(63)
    else None
  }

  lemma CharOfVal(v: nat)
    requires v < 64
    ensures Val64(Char64(v)) == Some(v) && Char64(v) != '=' && '!' <= Char64(v) <= '~'
  {
  }

  lemma ValOfChar(c: char)
    requires Val64(c).Some?
    ensures Char64(Val64(c).value) == c && c != '='
  {
  }

  // Three bytes as four values of six bits, and back.
  function Split(a: nat, b: nat, c: nat): (nat, nat, nat, nat)
    requires a < 256 && b < 256 && c < 256
    ensures var (p, q, r, s) := Split(a, b, c); p < 64 && q < 64 && r < 64 && s < 64
  {
    (a / 4, a % 4 * 16 + b / 16, b % 16 * 4 + c / 64, c % 64)
  }

  function Merge(p: nat, q: nat, r: nat, s: nat): (nat, nat, nat)
    requires p < 64 && q < 64 && r < 64 && s < 64
    ensures var (a, b, c) := Merge(p, q, r, s); a < 256 && b < 256 && c < 256
  {
    (p * 4 + q / 16, q % 16 * 16 + r / 4, r % 4 * 64 + s)
  }

  lemma MergeSplit(a: nat, b: nat, c: nat)
    requires a < 256 && b < 256 && c < 256
    ensures var (p, q, r, s) := Split(a, b, c); Merge(p, q, r, s) == (a, b, c)
  {
  }

  lemma SplitMerge(p: nat, q: nat, r: nat, s: nat)
    requires p < 64 && q < 64 && r < 64 && s < 64
    ensures var (a, b, c) := Merge(p, q, r, s); Split(a, b, c) == (p, q, r, s)
  {
    var (a, b, c) := Merge(p, q, r, s);
    assert a / 4 == p && a % 4 == q / 16;
    assert b / 16 == q % 16 && b % 16 == r / 4;
    assert c / 64 == r % 4 && c % 64 == s;
  }

  function Quad(a: nat, b: nat, c: nat): (r: string)
    requires a < 256 && b < 256 && c < 256
    ensures |r| == 4
  {
    var (p, q, u, v) := Split(a, b, c);
    [Char64(p), Char64(q), Char64(u), Char64(v)]
  }

  // The bytes of the four characters, if they are all of the alphabet.
  function Bytes3(t: string): (r: Option<string>)
    requires |t| == 4
    ensures r.Some? ==> |r.value| == 3 && IsBytes(r.value)
  {
    if Val64(t[0]).Some? && Val64(t[1]).Some? && Val64(t[2]).Some? && Val64(t[3]).Some? then
      var (a, b, c) := Merge(Val64(t[0]).value, Val64(t[1]).value, Val64(t[2]).value, Val64(t[3]).value);
      Some([a as char, b as char, c as char])
    else None
  }

  function Encode(s: string): string
    requires IsBytes(s)
  {
    if s == "" then ""
    else if |s| == 1 then Quad(s[0] as int, 0, 0)[..2] + "=="
    else if |s| == 2 then Quad(s[0] as int, s[1] as int, 0)[..3] + "="
    else Quad(s[0] as int, s[1] as int, s[2] as int) + Encode(s[3..])
  }

  // Any other length, character or padding, and set bits after the last byte, are errors.
  function Decode(t: string): Option<string> {
    if t == "" then Some("")
    else if |t| < 4 then None
    else if |t| == 4 then DecodeLast(t)
    else
      match (Bytes3(t[..4]), Decode(t[4..]))
      case (Some(bytes), Some(rest)) => Some(bytes + rest)
      case _ => None
  }

  function DecodeLast(t: string): Option<string>
    requires |t| == 4
  {
    if t[2..] == "==" then Unpad(Bytes3(t[..2] + "AA"), 1)
    else if t[3] == '=' then Unpad(Bytes3(t[..3] + "A"), 2)
    else Bytes3(t)
  }

  // The bytes that padding leaves; the dropped ones must be zero.
  function Unpad(bytes: Option<string>, n: nat): Option<string>
    requires bytes.Some? ==> n <= |bytes.value|
  {
    if bytes.Some? && forall i | n <= i < |bytes.value| :: bytes.value[i] == 0 as char
    then Some(bytes.value[..n]) else None
  }

  lemma QuadDecodes(a: nat, b: nat, c: nat)
    requires a < 256 && b < 256 && c < 256
    ensures Bytes3(Quad(a, b, c)) == Some([a as char, b as char, c as char])
    ensures IsGraphic(Quad(a, b, c)) && '=' !in Quad(a, b, c)
    ensures c == 0 ==> Quad(a, b, c)[3] == 'A'
    ensures b == c == 0 ==> Quad(a, b, c)[2] == 'A'
  {
    var (p, q, u, v) := Split(a, b, c);
    MergeSplit(a, b, c);
    CharOfVal(p);
    CharOfVal(q);
    CharOfVal(u);
    CharOfVal(v);
  }

  lemma Bytes3Encodes(t: string)
    requires |t| == 4 && Bytes3(t).Some?
    ensures var b := Bytes3(t).value; Quad(b[0] as int, b[1] as int, b[2] as int) == t
  {
    ValOfChar(t[0]);
    ValOfChar(t[1]);
    ValOfChar(t[2]);
    ValOfChar(t[3]);
    SplitMerge(Val64(t[0]).value, Val64(t[1]).value, Val64(t[2]).value, Val64(t[3]).value);
  }

  lemma OneByte(a: nat)
    requires a < 256
    ensures DecodeLast(Quad(a, 0, 0)[..2] + "==") == Some([a as char])
  {
    QuadDecodes(a, 0, 0);
    var q := Quad(a, 0, 0);
    var t := q[..2] + "==";
    assert t[2..] == "==" && t[..2] + "AA" == q;
    assert [a as char, 0 as char, 0 as char][..1] == [a as char];
  }

  lemma TwoBytes(a: nat, b: nat)
    requires a < 256 && b < 256
    ensures DecodeLast(Quad(a, b, 0)[..3] + "=") == Some([a as char, b as char])
  {
    QuadDecodes(a, b, 0);
    var q := Quad(a, b, 0);
    var t := q[..3] + "=";
    assert t[2] != '=' && t[3] == '=' && t[..3] + "A" == q;
    assert [a as char, b as char, 0 as char][..2] == [a as char, b as char];
  }

  lemma ThreeBytes(a: nat, b: nat, c: nat)
    requires a < 256 && b < 256 && c < 256
    ensures DecodeLast(Quad(a, b, c)) == Some([a as char, b as char, c as char])
  {
    QuadDecodes(a, b, c);
    assert Quad(a, b, c)[3] != '=';
  }

  lemma RoundTrip1(s: string)
    requires IsBytes(s) && |s| == 1
    ensures |Encode(s)| == 4 && DecodeLast(Encode(s)) == Some(s)
  {
    OneByte(s[0] as int);
    assert s == [s[0]];
  }

  lemma RoundTrip2(s: string)
    requires IsBytes(s) && |s| == 2
    ensures |Encode(s)| == 4 && DecodeLast(Encode(s)) == Some(s)
  {
    TwoBytes(s[0] as int, s[1] as int);
    assert s == [s[0], s[1]];
  }

  lemma RoundTrip3(s: string)
    requires IsBytes(s) && |s| == 3
    ensures |Encode(s)| == 4 && DecodeLast(Encode(s)) == Some(s)
  {
    ThreeBytes(s[0] as int, s[1] as int, s[2] as int);
    assert s == [s[0], s[1], s[2]];
    assert s[3..] == "" && Encode(s[3..]) == "";
    assert Quad(s[0] as int, s[1] as int, s[2] as int) + "" == Quad(s[0] as int, s[1] as int, s[2] as int);
  }

  lemma DecodeMore(quad: string, rest: string)
    requires |quad| == 4 && rest != "" && Bytes3(quad).Some? && Decode(rest).Some?
    ensures Decode(quad + rest) == Some(Bytes3(quad).value + Decode(rest).value)
  {
    assert (quad + rest)[..4] == quad && (quad + rest)[4..] == rest;
  }

  lemma ThreeAndRest<T>(s: seq<T>)
    requires |s| >= 3
    ensures [s[0], s[1], s[2]] + s[3..] == s
  {
  }

  lemma EncodeMore(s: string)
    requires IsBytes(s) && |s| > 3
    ensures Encode(s) == Quad(s[0] as int, s[1] as int, s[2] as int) + Encode(s[3..])
  {
  }

  lemma RoundTripMore(s: string)
    requires IsBytes(s) && |s| > 3 && Decode(Encode(s[3..])) == Some(s[3..])
    ensures Decode(Encode(s)) == Some(s)
  {
    var quad, rest := Quad(s[0] as int, s[1] as int, s[2] as int), Encode(s[3..]);
    QuadDecodes(s[0] as int, s[1] as int, s[2] as int);
    EncodeNotEmpty(s[3..]);
    EncodeMore(s);
    DecodeMore(quad, rest);
    ThreeAndRest(s);
  }

  // Decoding undoes encoding, for every byte string.
  lemma {:induction false} DecodeOfEncode(s: string)
    requires IsBytes(s)
    ensures Decode(Encode(s)) == Some(s)
    decreases |s|
  {
    if s == "" {
    } else if |s| == 1 {
      RoundTrip1(s);
    } else if |s| == 2 {
      RoundTrip2(s);
    } else if |s| == 3 {
      RoundTrip3(s);
    } else {
      DecodeOfEncode(s[3..]);
      RoundTripMore(s);
    }
  }

  lemma EncodeNotEmpty(s: string)
    requires IsBytes(s) && s != ""
    ensures Encode(s) != ""
  {
  }

  lemma LastEncodes(t: string)
    requires |t| == 4 && DecodeLast(t).Some?
    ensures var s := DecodeLast(t).value; IsBytes(s) && Encode(s) == t
  {
    if t[2..] == "==" {
      Bytes3Encodes(t[..2] + "AA");
      assert t == t[..2] + "==";
    } else if t[3] == '=' {
      Bytes3Encodes(t[..3] + "A");
      assert t == t[..3] + "=";
    } else {
      Bytes3Encodes(t);
    }
  }

  // Encoding undoes decoding: no byte string has a second encoding.
  lemma {:induction false} EncodeOfDecode(t: string)
    requires Decode(t).Some?
    ensures IsBytes(Decode(t).value) && Encode(Decode(t).value) == t
    decreases |t|
  {
    if |t| == 4 {
      LastEncodes(t);
    } else if |t| > 4 {
      Bytes3Encodes(t[..4]);
      EncodeOfDecode(t[4..]);
      var b, rest := Bytes3(t[..4]).value, Decode(t[4..]).value;
      assert (b + rest)[3..] == rest;
      if rest == "" { assert false; }
      assert t == t[..4] + t[4..];
    }
  }

  lemma {:induction false} EncodeIsGraphic(s: string)
    requires IsBytes(s)
    ensures IsGraphic(Encode(s))
    decreases |s|
  {
    if s == "" {
    } else if |s| == 1 {
      QuadDecodes(s[0] as int, 0, 0);
    } else if |s| == 2 {
      QuadDecodes(s[0] as int, s[1] as int, 0);
    } else {
      QuadDecodes(s[0] as int, s[1] as int, s[2] as int);
      EncodeIsGraphic(s[3..]);
    }
  }
}
