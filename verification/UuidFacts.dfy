/** Which bytes and which texts stand for an integer or a UUID. */
module UuidFacts {
  import opened Text
  import opened Uuids
  import opened TextFacts

  // ---------------------------------------------------------------- bytes

  // The first byte is the most significant one.
  lemma {:induction false} FirstIsHighest(c: char, s: string)
    ensures FromBigEndian([c] + s) == c as int * Pow256(|s|) + FromBigEndian(s)
    decreases |s|
  {
    if s == "" {
      assert [c] + s == [c] && [c][..0] == "";
      assert FromBigEndian([c]) == FromBigEndian("") * 256 + c as int;
    } else {
      var init, last := s[..|s| - 1], s[|s| - 1];
      FirstIsHighest(c, init);
      assert ([c] + s)[..|s|] == [c] + init;
      assert Pow256(|s|) == 256 * Pow256(|init|);
      ScaleUp(c as int, Pow256(|init|), FromBigEndian(init), last as int);
    }
  }

  lemma ScaleUp(c: int, p: int, v: int, last: int)
    ensures (c * p + v) * 256 + last == c * (256 * p) + (v * 256 + last)
  {
    assert c * p * 256 == c * (256 * p);
  }

  lemma {:induction false} BytesOfValue(s: string)
    requires IsBytes(s)
    ensures BigEndian(FromBigEndian(s), |s|) == s
    decreases |s|
  {
    if s != "" {
      var init, last := s[..|s| - 1], s[|s| - 1];
      BytesOfValue(init);
      LastByte(FromBigEndian(init), last as int);
      assert s == init + [last];
    }
  }

  lemma LastByte(v: nat, c: nat)
    requires c < 256
    ensures (v * 256 + c) / 256 == v && (v * 256 + c) % 256 == c
  {
  }

  lemma UuidOfBytes(u: Uuid, b: string)
    requires IsBytes(b) && |b| == 16
    ensures FromBigEndian(b) == u <==> b == UuidBytes(u)
  {
    Pow256Of16();
    BytesOfValue(b);
    BigEndianRoundTrip(u, 16);
  }

  // ---------------------------------------------------------------- texts

  lemma DigitsParse(s: string, u: Uuid)
    requires |s| == 32
    ensures ParseDigits(s) == Some(u) <==> AsciiLower(s) == HexEncode(UuidBytes(u))
  {
    HexSpelling(s, UuidBytes(u));
    HexDecodeLength(s);
    if HexDecode(s).Some? { UuidOfBytes(u, HexDecode(s).value); }
  }

  // The digits of a hyphenated text.
  function Unhyphenated(s: string): string
    requires |s| == 36
  {
    s[..8] + s[9..13] + s[14..18] + s[19..23] + s[24..]
  }

  predicate HasHyphens(s: string)
    requires |s| == 36
  {
    s[8] == '-' && s[13] == '-' && s[18] == '-' && s[23] == '-'
  }

  lemma UnhyphenatedLower(s: string)
    requires |s| == 36
    ensures Unhyphenated(AsciiLower(s)) == AsciiLower(Unhyphenated(s)) && HasHyphens(AsciiLower(s)) == HasHyphens(s)
  {
    var t := AsciiLower(s);
    assert AsciiLower(s[..8]) == t[..8] && AsciiLower(s[9..13]) == t[9..13] && AsciiLower(s[14..18]) == t[14..18];
    assert AsciiLower(s[19..23]) == t[19..23] && AsciiLower(s[24..]) == t[24..];
    LowerConcat(s[..8], s[9..13]);
    LowerConcat(s[..8] + s[9..13], s[14..18]);
    LowerConcat(s[..8] + s[9..13] + s[14..18], s[19..23]);
    LowerConcat(s[..8] + s[9..13] + s[14..18] + s[19..23], s[24..]);
  }

  lemma LowerConcat(a: string, b: string)
    ensures AsciiLower(a + b) == AsciiLower(a) + AsciiLower(b)
  {
  }

  lemma HyphenatedIs(t: string)
    requires |t| == 36 && HasHyphens(t)
    ensures Hyphenate(Unhyphenated(t)) == t
  {
    var h := Unhyphenated(t);
    assert h[..8] == t[..8] && h[8..12] == t[9..13] && h[12..16] == t[14..18];
    assert h[16..20] == t[19..23] && h[20..] == t[24..];
    assert t[8..9] == "-" && t[13..14] == "-" && t[18..19] == "-" && t[23..24] == "-";
    assert t == t[..8] + t[8..9] + t[9..13] + t[13..14] + t[14..18] + t[18..19] + t[19..23] + t[23..24] + t[24..];
  }

  // Printed, the digits stand in groups of 8, 4, 4, 4 and 12.
  lemma UuidTextIs(u: Uuid)
    ensures var t := UuidText(u);
      && t[8] == '-' && t[13] == '-' && t[18] == '-' && t[23] == '-'
      && t[..8] + t[9..13] + t[14..18] + t[19..23] + t[24..] == HexEncode(UuidBytes(u))
  {
    HyphensCut(HexEncode(UuidBytes(u)));
  }

  lemma HyphenatedParse(s: string, u: Uuid)
    requires |s| == 36
    ensures ParseHyphenated(s) == Some(u) <==> AsciiLower(s) == UuidText(u)
  {
    UnhyphenatedLower(s);
    UuidTextIs(u);
    DigitsParse(Unhyphenated(s), u);
    if HasHyphens(AsciiLower(s)) { HyphenatedIs(AsciiLower(s)); }
  }

  lemma BracedLower(s: string, u: Uuid)
    requires |s| == 38
    ensures AsciiLower(s) == "{" + UuidText(u) + "}" <==>
      s[0] == '{' && s[37] == '}' && AsciiLower(s[1..37]) == UuidText(u)
  {
    var t := AsciiLower(s);
    assert t[1..37] == AsciiLower(s[1..37]) && t == [t[0]] + t[1..37] + [t[37]];
    var b := "{" + UuidText(u) + "}";
    assert b[0] == '{' && b[37] == '}' && b[1..37] == UuidText(u);
  }

  lemma UrnLower(s: string, u: Uuid)
    requires |s| == 45 && s[..9] == "urn:uuid:"
    ensures AsciiLower(s) == "urn:uuid:" + UuidText(u) <==> AsciiLower(s[9..]) == UuidText(u)
  {
    var t := AsciiLower(s);
    assert s == s[..9] + s[9..];
    LowerConcat(s[..9], s[9..]);
    assert AsciiLower("urn:uuid:") == "urn:uuid:";
    assert t[..9] == "urn:uuid:" && t[9..] == AsciiLower(s[9..]);
    assert ("urn:uuid:" + UuidText(u))[9..] == UuidText(u);
  }

  // Main result: a text parses to a UUID exactly if it is, in letters of any case, the digits of the
  // UUID, their hyphenated form, or that form in braces or behind "urn:uuid:".
  lemma ParseUuidIff(s: string, u: Uuid)
    ensures ParseUuid(s) == Some(u) <==>
      || AsciiLower(s) == HexEncode(UuidBytes(u)) || AsciiLower(s) == UuidText(u)
      || AsciiLower(s) == "{" + UuidText(u) + "}"
      || (AsciiLower(s) == "urn:uuid:" + UuidText(u) && s[..9] == "urn:uuid:")
  {
    if |s| == 32 {
      DigitsParse(s, u);
    } else if |s| == 36 {
      HyphenatedParse(s, u);
    } else if |s| == 38 {
      BracedLower(s, u);
      HyphenatedParse(s[1..37], u);
    } else if |s| == 45 && s[..9] == "urn:uuid:" {
      UrnLower(s, u);
      HyphenatedParse(s[9..], u);
    }
  }
}
