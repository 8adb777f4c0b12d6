/**
 Client ids (crypto/src/e2e_identity/id.rs): a user id, a colon and a device part. One form writes
 the user id as a hyphenated UUID, the other as unpadded base64url of its 16 bytes.
 */
module ClientIds {
  import opened Wrappers

  type Byte = x: int | 0 <= x < 256
  type Bytes = seq<Byte>
  type Sextet = x: int | 0 <= x < 64
  type Nibble = x: int | 0 <= x < 16
  type Uuid = u: Bytes | |u| == 16 witness [0, 0, 0, 0, 0, 0, 0, 0, 0, 0, 0, 0, 0, 0, 0, 0]

  const COLON: Byte := 58
  const HYPHEN: Byte := 45

  // ----- base64url without padding: section 5 of RFC 4648 -----

  function SextetChar(v: Sextet): (c: Byte)
    ensures c != COLON
  {
    if v < 26 then 65 + v
    else if v < 52 then 97 + (v - 26)
    else if v < 62 then 48 + (v - 52)
    else if v == 62 then HYPHEN else 95
  }

  function CharSextet(c: Byte): (v: Option<Sextet>)
    ensures v.Some? ==> SextetChar(v.value) == c
  {
    if 65 <= c <= 90 then Some(c - 65)
    else if 97 <= c <= 122 then Some(c - 97 + 26)
    else if 48 <= c <= 57 then Some(c - 48 + 52)
    else if c == HYPHEN then Some(62)
    else if c == 95 then Some(63)
    else None
  }

  // Three bytes against four sextets, bit for bit.
  function First(a: Sextet, b: Sextet): (r: Byte) { a * 4 + b / 16 }
  function Second(b: Sextet, c: Sextet): (r: Byte) { b % 16 * 16 + c / 4 }
  function Third(c: Sextet, d: Sextet): (r: Byte) { c % 4 * 64 + d }
  function SextetA(x: Byte): (r: Sextet) { x / 4 }
  function SextetB(x: Byte, y: Byte): (r: Sextet) { x % 4 * 16 + y / 16 }
  function SextetC(y: Byte, z: Byte): (r: Sextet) { y % 16 * 4 + z / 64 }
  function SextetD(z: Byte): (r: Sextet) { z % 64 }

  function ToSextets(bs: Bytes): (vs: seq<Sextet>)
  {
    if |bs| == 0 then []
    else if |bs| == 1 then [SextetA(bs[0]), SextetB(bs[0], 0)]
    else if |bs| == 2 then [SextetA(bs[0]), SextetB(bs[0], bs[1]), SextetC(bs[1], 0)]
    else [SextetA(bs[0]), SextetB(bs[0], bs[1]), SextetC(bs[1], bs[2]), SextetD(bs[2])] + ToSextets(bs[3..])
  }

  function Chars(vs: seq<Sextet>): (cs: Bytes)
    ensures |cs| == |vs| && COLON !in cs
  {
    if vs == [] then [] else [SextetChar(vs[0])] + Chars(vs[1..])
  }

  function Encode(bs: Bytes): (cs: Bytes)
    ensures COLON !in cs
  {
    Chars(ToSextets(bs))
  }

  function Sextets(cs: Bytes): (vs: Option<seq<Sextet>>)
    ensures vs.Some? ==> |vs.value| == |cs|
  {
    if cs == [] then Some([])
    else
      var (first, rest) := (CharSextet(cs[0]), Sextets(cs[1..]));
      if first.Some? && rest.Some? then Some([first.value] + rest.value) else None
  }

  /** Bits left over at the end must be zero: section 3.5 of RFC 4648. */
  function FromSextets(vs: seq<Sextet>): (bs: Option<Bytes>)
  {
    if |vs| == 0 then Some([])
    else if |vs| == 1 then None
    else if |vs| == 2 then if vs[1] % 16 == 0 then Some([First(vs[0], vs[1])]) else None
    else if |vs| == 3 then
      if vs[2] % 4 == 0 then Some([First(vs[0], vs[1]), Second(vs[1], vs[2])]) else None
    else
      match FromSextets(vs[4..])
      case None => None
      case Some(rest) => Some([First(vs[0], vs[1]), Second(vs[1], vs[2]), Third(vs[2], vs[3])] + rest)
  }

  function Decode(cs: Bytes): (bs: Option<Bytes>)
  {
    match Sextets(cs)
    case None => None
    case Some(vs) => FromSextets(vs)
  }

  // ----- UUIDs: section 3 of RFC 4122 -----

  function HexChar(n: Nibble): (c: Byte)
    ensures c != COLON && c != HYPHEN
  {
    if n < 10 then 48 + n else 97 + (n - 10)
  }

  function HexNibble(c: Byte): (n: Option<Nibble>)
  {
    if 48 <= c <= 57 then Some(c - 48)
    else if 97 <= c <= 102 then Some(c - 97 + 10)
    else if 65 <= c <= 70 then Some(c - 65 + 10)
    else None
  }

  function FromNibbles(high: Nibble, low: Nibble): (b: Byte)
  {
    high * 16 + low
  }

  function Hex(bs: Bytes): (cs: Bytes)
    ensures |cs| == 2 * |bs| && COLON !in cs
  {
    if bs == [] then [] else [HexChar(bs[0] / 16), HexChar(bs[0] % 16)] + Hex(bs[1..])
  }

  function ParseHex(cs: Bytes): (bs: Option<Bytes>)
    requires |cs| % 2 == 0
    ensures bs.Some? ==> |bs.value| == |cs| / 2
  {
    if cs == [] then Some([])
    else
      var (high, low, rest) := (HexNibble(cs[0]), HexNibble(cs[1]), ParseHex(cs[2..]));
      if high.Some? && low.Some? && rest.Some? then Some([FromNibbles(high.value, low.value)] + rest.value) else None
  }

  /** 32 digits in groups of 8, 4, 4, 4 and 12. */
  function WithHyphens(h: Bytes): (s: Bytes)
    requires |h| == 32
    ensures |s| == 36
  {
    h[..8] + [HYPHEN] + h[8..12] + [HYPHEN] + h[12..16] + [HYPHEN] + h[16..20] + [HYPHEN] + h[20..]
  }

  function WithoutHyphens(s: Bytes): (h: Bytes)
    requires |s| == 36
    ensures |h| == 32
  {
    s[..8] + s[9..13] + s[14..18] + s[19..23] + s[24..]
  }

  predicate HyphensInPlace(s: Bytes)
    requires |s| == 36
  {
    s[8] == HYPHEN && s[13] == HYPHEN && s[18] == HYPHEN && s[23] == HYPHEN
  }

  function Hyphenated(u: Uuid): (s: Bytes)
  {
    WithHyphens(Hex(u))
  }

  const URN_UUID: Bytes := [117, 114, 110, 58, 117, 117, 105, 100, 58]

  /** The 32 digits of a textual UUID: plain, hyphenated, braced, or as a URN. */
  function Digits(s: Bytes): (h: Option<Bytes>)
    ensures h.Some? ==> |h.value| == 32
  {
    var hyphenated :=
      if |s| == 36 then Some(s)
      else if |s| == 38 && s[0] == 123 && s[37] == 125 then Some(s[1..37])
      else if |s| == 45 && s[..9] == URN_UUID then Some(s[9..])
      else None;
    if |s| == 32 then Some(s)
    else if hyphenated.Some? && HyphensInPlace(hyphenated.value) then Some(WithoutHyphens(hyphenated.value))
    else None
  }

  function ParseUuid(s: Bytes): (u: Option<Uuid>)
  {
    match Digits(s)
    case None => None
    case Some(h) => ParseHex(h)
  }

  // ----- the two conversions -----

  /** The fields between colons; there is always at least one. */
  function Split(s: Bytes): (fields: seq<Bytes>)
    ensures |fields| > 0
  {
    if s == [] then [[]]
    else
      var rest := Split(s[1..]);
      if s[0] == COLON then [[]] + rest else [[s[0]] + rest[0]] + rest[1..]
  }

  function Join(user: Bytes, rest: Bytes): (s: Bytes)
  {
    user + [COLON] + rest
  }

  /** `WireQualifiedClientId::try_from`: from the base64url form. */
  function ToWireQualified(id: Bytes): (r: Option<Bytes>)
  {
    var fields := Split(id);
    match Decode(fields[0])
    case None => None
    case Some(user) =>
      if |user| != 16 || |fields| != 2 then None else Some(Join(Hyphenated(user), fields[1]))
  }

  /** `QualifiedE2eiClientId::try_from`: from the UUID form. */
  function ToQualifiedE2ei(id: Bytes): (r: Option<Bytes>)
  {
    var fields := Split(id);
    match ParseUuid(fields[0])
    case None => None
    case Some(user) => if |fields| != 2 then None else Some(Join(Encode(user), fields[1]))
  }
}
