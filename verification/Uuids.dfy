/** Fixed-width integers and UUIDs as bytes and as text; times and other identifiers. */
module Uuids {
  import opened Text

  // Microseconds since the epoch.
  type Time = int

  function Pow256(e: nat): (p: nat)
    ensures p > 0
  {
    if e == 0 then 1 else 256 * Pow256(e - 1)
  }

  // The `width` low-order bytes of `n`, most significant first.
  function BigEndian(n: nat, width: nat): (r: string)
    ensures |r| == width && IsBytes(r)
  {
    if width == 0 then "" else BigEndian(n / 256, width - 1) + [(n % 256) as char]
  }

  function FromBigEndian(s: string): nat {
    if s == "" then 0 else FromBigEndian(s[..|s| - 1]) * 256 + s[|s| - 1] as int
  }

  lemma {:induction false} BigEndianRoundTrip(n: nat, width: nat)
    requires n < Pow256(width)
    ensures FromBigEndian(BigEndian(n, width)) == n
  {
    if width > 0 {
      BigEndianRoundTrip(n / 256, width - 1);
      assert BigEndian(n, width)[..width - 1] == BigEndian(n / 256, width - 1);
    }
  }

  lemma BigEndianInjective(n: nat, m: nat, width: nat)
    requires n < Pow256(width) && m < Pow256(width)
    requires BigEndian(n, width) == BigEndian(m, width)
    ensures n == m
  {
    BigEndianRoundTrip(n, width);
    BigEndianRoundTrip(m, width);
  }

  lemma {:induction false} FromBigEndianBound(s: string)
    requires IsBytes(s)
    ensures FromBigEndian(s) < Pow256(|s|)
  {
    if s != "" { FromBigEndianBound(s[..|s| - 1]); }
  }

  // ---------------------------------------------------------------- i64

  const I64_MAX := 0x7fff_ffff_ffff_ffff
  type I64 = n: int | -I64_MAX - 1 <= n <= I64_MAX

  // i64::to_be_bytes: two's complement.
  function I64Bytes(n: I64): (r: string)
    ensures |r| == 8
  {
    BigEndian(if n < 0 then n + 2 * (I64_MAX + 1) else n, 8)
  }

  lemma Pow256Of8()
    ensures Pow256(8) == 2 * (I64_MAX + 1)
  {
    assert Pow256(2) == 0x1_0000;
    assert Pow256(4) == 0x1_0000_0000;
    assert Pow256(6) == 0x1_0000_0000_0000;
  }

  lemma I64BytesInjective(n: I64, m: I64)
    requires I64Bytes(n) == I64Bytes(m)
    ensures n == m
  {
    Pow256Of8();
    BigEndianInjective(if n < 0 then n + 2 * (I64_MAX + 1) else n,
                       if m < 0 then m + 2 * (I64_MAX + 1) else m, 8);
  }

  // The leading byte of a small positive number is 0x00, which is no hexadecimal digit.
  lemma {:induction false} BigEndianLeadingZero(n: nat, width: nat)
    requires n < 256 && width >= 2
    ensures BigEndian(n, width)[0] == 0 as char
  {
    if width == 2 {
      assert BigEndian(0, 1) == BigEndian(0, 0) + [0 as char];
    } else {
      BigEndianLeadingZero(n / 256, width - 1);
    }
  }

  // ---------------------------------------------------------------- UUIDs

  // A 128-bit UUID. The database orders UUIDs by their bytes, which is the order of these numbers.
  const UUID_LIMIT: nat := 0x1_0000_0000_0000_0000_0000_0000_0000_0000
  type Uuid = n: nat | n < UUID_LIMIT witness 0

  lemma Pow256Of16()
    ensures Pow256(16) == UUID_LIMIT
  {
    assert Pow256(4) == 0x1_0000_0000;
    assert Pow256(8) == 0x1_0000_0000_0000_0000;
    assert Pow256(12) == 0x1_0000_0000_0000_0000_0000_0000;
  }

  const NIL: Uuid := 0

  function UuidBytes(u: Uuid): (r: string)
    ensures |r| == 16 && IsBytes(r)
  {
    BigEndian(u, 16)
  }

  // The hyphenated lower-case form printed by Display.
  function UuidText(u: Uuid): (r: string)
    ensures |r| == 36
  {
    Hyphenate(HexEncode(UuidBytes(u)))
  }

  function Hyphenate(h: string): (r: string)
    requires |h| == 32
    ensures |r| == 36
  {
    h[..8] + "-" + h[8..12] + "-" + h[12..16] + "-" + h[16..20] + "-" + h[20..]
  }

  // Uuid::parse_str: 32 digits, the hyphenated form, and that form in braces or after "urn:uuid:".
  function ParseUuid(s: string): Option<Uuid> {
    if |s| == 32 then ParseDigits(s)
    else if |s| == 36 then ParseHyphenated(s)
    else if |s| == 38 && s[0] == '{' && s[37] == '}' then ParseHyphenated(s[1..37])
    else if |s| == 45 && s[..9] == "urn:uuid:" then ParseHyphenated(s[9..])
    else None
  }

  function ParseHyphenated(s: string): Option<Uuid>
    requires |s| == 36
  {
    if s[8] == '-' && s[13] == '-' && s[18] == '-' && s[23] == '-'
    then ParseDigits(s[..8] + s[9..13] + s[14..18] + s[19..23] + s[24..])
    else None
  }

  function ParseDigits(s: string): Option<Uuid>
    requires |s| == 32
  {
    HexDecodeLength(s);
    match HexDecode(s)
    case None => None
    case Some(b) =>
      FromBigEndianBound(b);
      Pow256Of16();
      Some(FromBigEndian(b))
  }

  lemma {:induction false} HexDecodeLength(s: string)
    ensures var d := HexDecode(s); d.Some? ==> 2 * |d.value| == |s| && IsBytes(d.value)
    decreases |s|
  {
    if |s| >= 2 { HexDecodeLength(s[2..]); }
  }

  lemma HyphensCut(h: string)
    requires |h| == 32
    ensures var t := Hyphenate(h);
      && t[8] == '-' && t[13] == '-' && t[18] == '-' && t[23] == '-'
      && t[..8] + t[9..13] + t[14..18] + t[19..23] + t[24..] == h
  {
    var t := Hyphenate(h);
    assert t[..8] == h[..8] && t[9..13] == h[8..12] && t[14..18] == h[12..16];
    assert t[19..23] == h[16..20] && t[24..] == h[20..];
    assert h[..8] + h[8..12] == h[..12] && h[..12] + h[12..16] == h[..16];
    assert h[..16] + h[16..20] == h[..20] && h[..20] + h[20..] == h;
  }

  lemma HyphenateChars(h: string)
    requires |h| == 32 && forall i | 0 <= i < 32 :: IsLowerHex(h[i])
    ensures forall c | c in Hyphenate(h) :: c == '-' || IsLowerHex(c)
  {
  }

  lemma HyphenatedIsGraphic(t: string)
    requires forall i | 0 <= i < |t| :: t[i] == '-' || IsLowerHex(t[i])
    ensures IsGraphic(t) && ':' !in t
  {
  }

  // What a UUID prints as is 36 graphic characters without a colon, and parses back to it.
  lemma UuidRoundTrip(u: Uuid)
    ensures ParseUuid(UuidText(u)) == Some(u)
    ensures IsGraphic(UuidText(u)) && ':' !in UuidText(u)
  {
    var b := UuidBytes(u);
    HexRoundTrip(b);
    HexIsLower(b);
    Pow256Of16();
    BigEndianRoundTrip(u, 16);
    HyphensCut(HexEncode(b));
    HyphenateChars(HexEncode(b));
    HyphenatedIsGraphic(UuidText(u));
  }

  lemma UuidTextInjective(u: Uuid, v: Uuid)
    requires UuidText(u) == UuidText(v)
    ensures u == v
  {
    UuidRoundTrip(u);
    UuidRoundTrip(v);
  }

  // ---------------------------------------------------------------- identifiers of transactions

  lemma UnusedId<T>(txs: map<nat, T>) returns (id: nat)
    ensures id !in txs
  {
    var ids := txs.Keys;
    id := 0;
    while ids != {}
      invariant forall u | u in txs.Keys :: u in ids || u < id
      decreases |ids|
    {
      var u :| u in ids;
      if u >= id { id := u + 1; }
      ids := ids - {u};
    }
  }
}
