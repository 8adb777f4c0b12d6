/** The two forms of a client id stand for each other. */
module ClientIdLaws {
  import opened Wrappers
  import opened Sequences
  import opened ClientIds

  // ----- base64url -----

  const UPPER := "ABCDEFGHIJKLMNOPQRSTUVWXYZ"
  const LOWER := "abcdefghijklmnopqrstuvwxyz"
  const DIGITS := "0123456789"

  /** The alphabet of section 5 of RFC 4648. */
  lemma {:induction false} SextetCharIsAlphabet(v: Sextet)
    ensures |UPPER + LOWER + DIGITS + "-_"| == 64
    ensures SextetChar(v) == (UPPER + LOWER + DIGITS + "-_")[v] as int
  {
    assert forall i :: 0 <= i < 26 ==> UPPER[i] as int == 65 + i;
    assert forall i :: 0 <= i < 26 ==> LOWER[i] as int == 97 + i;
    assert forall i :: 0 <= i < 10 ==> DIGITS[i] as int == 48 + i;
  }

  lemma {:induction false} CharRoundTrip(v: Sextet)
    ensures CharSextet(SextetChar(v)) == Some(v)
  {
    if v < 26 {} else if v < 52 {} else if v < 62 {} else {}
  }

  lemma {:induction false} CharsCons(v: Sextet, vs: seq<Sextet>)
    ensures Chars([v] + vs) == [SextetChar(v)] + Chars(vs)
  {
    hide SextetChar;
    assert ([v] + vs)[1..] == vs;
  }

  lemma {:induction false} SextetsCons(c: Byte, cs: Bytes, v: Sextet, vs: seq<Sextet>)
    requires CharSextet(c) == Some(v) && Sextets(cs) == Some(vs)
    ensures Sextets([c] + cs) == Some([v] + vs)
  {
    hide CharSextet;
    assert ([c] + cs)[1..] == cs;
  }

  lemma {:induction false} CharsRoundTrip(vs: seq<Sextet>)
    ensures Sextets(Chars(vs)) == Some(vs)
  {
    if vs == [] {
      assert Chars(vs) == [];
    } else {
      hide *;
      CharsRoundTrip(vs[1..]);
      CharRoundTrip(vs[0]);
      CharsCons(vs[0], vs[1..]);
      SextetsCons(SextetChar(vs[0]), Chars(vs[1..]), vs[0], vs[1..]);
      assert vs == [vs[0]] + vs[1..];
    }
  }

  lemma {:induction false} SextetsRoundTrip(cs: Bytes)
    requires Sextets(cs).Some?
    ensures Chars(Sextets(cs).value) == cs
  {
    if cs != [] {
      SextetsRoundTrip(cs[1..]);
    }
  }

  lemma {:induction false} GroupRoundTrip(x: Byte, y: Byte, z: Byte)
    ensures First(SextetA(x), SextetB(x, y)) == x
    ensures Second(SextetB(x, y), SextetC(y, z)) == y
    ensures Third(SextetC(y, z), SextetD(z)) == z
  {
  }

  lemma {:induction false} GroupPadding(x: Byte)
    ensures SextetB(x, 0) % 16 == 0 && SextetC(x, 0) % 4 == 0
  {
    assert SextetB(x, 0) == x % 4 * 16 && SextetC(x, 0) == x % 16 * 4;
  }

  lemma {:induction false} SextetGroupRoundTrip(a: Sextet, b: Sextet, c: Sextet, d: Sextet)
    ensures SextetA(First(a, b)) == a
    ensures SextetB(First(a, b), Second(b, c)) == b
    ensures SextetC(Second(b, c), Third(c, d)) == c
    ensures SextetD(Third(c, d)) == d
  {
  }

  lemma {:induction false} ToSextetsGroup(x: Byte, y: Byte, z: Byte, rest: Bytes)
    ensures ToSextets([x, y, z] + rest) == [SextetA(x), SextetB(x, y), SextetC(y, z), SextetD(z)] + ToSextets(rest)
  {
    hide SextetA, SextetB, SextetC, SextetD;
    assert ([x, y, z] + rest)[3..] == rest;
  }

  lemma {:induction false} FromSextetsGroup(a: Sextet, b: Sextet, c: Sextet, d: Sextet, rest: seq<Sextet>)
    requires FromSextets(rest).Some?
    ensures FromSextets([a, b, c, d] + rest)
         == Some([First(a, b), Second(b, c), Third(c, d)] + FromSextets(rest).value)
  {
    hide First, Second, Third;
    assert ([a, b, c, d] + rest)[4..] == rest;
  }

  lemma {:induction false} FromToGroup(x: Byte, y: Byte, z: Byte, rest: Bytes)
    requires FromSextets(ToSextets(rest)) == Some(rest)
    ensures FromSextets(ToSextets([x, y, z] + rest)) == Some([x, y, z] + rest)
  {
    hide First, Second, Third, SextetA, SextetB, SextetC, SextetD, FromSextets, ToSextets;
    var (a, b, c, d) := (SextetA(x), SextetB(x, y), SextetC(y, z), SextetD(z));
    GroupRoundTrip(x, y, z);
    ToSextetsGroup(x, y, z, rest);
    FromSextetsGroup(a, b, c, d, ToSextets(rest));
  }

  lemma {:induction false} FromSextetsTwo(a: Sextet, b: Sextet)
    requires b % 16 == 0
    ensures FromSextets([a, b]) == Some([First(a, b)])
  {
    hide First;
  }

  lemma {:induction false} FromToOne(x: Byte)
    ensures FromSextets(ToSextets([x])) == Some([x])
  {
    hide *;
    GroupRoundTrip(x, 0, 0);
    GroupPadding(x);
    FromSextetsTwo(SextetA(x), SextetB(x, 0));
    ToSextetsOne(x);
  }

  lemma {:induction false} ToSextetsOne(x: Byte)
    ensures ToSextets([x]) == [SextetA(x), SextetB(x, 0)]
  {
    hide SextetA, SextetB;
  }

  lemma {:induction false} FromToTwo(x: Byte, y: Byte)
    ensures FromSextets(ToSextets([x, y])) == Some([x, y])
  {
    GroupRoundTrip(x, y, 0);
    GroupPadding(y);
    hide First, Second, SextetA, SextetB, SextetC;
  }

  lemma {:induction false} FromToSextets(bs: Bytes)
    ensures FromSextets(ToSextets(bs)) == Some(bs)
  {
    if |bs| == 0 {
    } else {
      hide FromSextets, ToSextets;
      if |bs| == 1 {
        FromToOne(bs[0]);
        assert bs == [bs[0]];
      } else if |bs| == 2 {
        FromToTwo(bs[0], bs[1]);
        assert bs == [bs[0], bs[1]];
      } else {
        FromToSextets(bs[3..]);
        FromToGroup(bs[0], bs[1], bs[2], bs[3..]);
        assert bs == [bs[0], bs[1], bs[2]] + bs[3..];
      }
    }
  }

  lemma {:induction false} ToFromSextets(vs: seq<Sextet>)
    requires FromSextets(vs).Some?
    ensures ToSextets(FromSextets(vs).value) == vs
  {
    if |vs| == 2 {
      SextetGroupRoundTrip(vs[0], vs[1], 0, 0);
    } else if |vs| == 3 {
      SextetGroupRoundTrip(vs[0], vs[1], vs[2], 0);
    } else if |vs| > 3 {
      ToFromSextets(vs[4..]);
      SextetGroupRoundTrip(vs[0], vs[1], vs[2], vs[3]);
      assert FromSextets(vs).value[3..] == FromSextets(vs[4..]).value;
    }
  }

  lemma {:induction false} DecodeEncode(bs: Bytes)
    ensures Decode(Encode(bs)) == Some(bs)
  {
    CharsRoundTrip(ToSextets(bs));
    FromToSextets(bs);
  }

  /** No other text decodes to the same bytes: the encoding is canonical. */
  lemma {:induction false} EncodeDecode(cs: Bytes)
    requires Decode(cs).Some?
    ensures Encode(Decode(cs).value) == cs
  {
    SextetsRoundTrip(cs);
    ToFromSextets(Sextets(cs).value);
  }

  // ----- base64url as RFC 4648 defines it: the same bits, cut every six -----

  function Bits(v: nat, width: nat): (bits: seq<bool>)
    ensures |bits| == width
  {
    if width == 0 then [] else Bits(v / 2, width - 1) + [v % 2 == 1]
  }

  function BitsOf(vs: seq<nat>, width: nat): (bits: seq<bool>)
  {
    if vs == [] then [] else Bits(vs[0], width) + BitsOf(vs[1..], width)
  }

  function Power2(n: nat): (p: nat)
    ensures p > 0
  {
    if n == 0 then 1 else 2 * Power2(n - 1)
  }

  lemma {:induction false} BitsConcat(a: nat, b: nat, n: nat, k: nat)
    requires b < Power2(k)
    ensures Bits(a * Power2(k) + b, n + k) == Bits(a, n) + Bits(b, k)
    decreases k
  {
    if k == 0 {
      assert a * Power2(0) + b == a;
    } else {
      var p := Power2(k - 1);
      assert a * Power2(k) == 2 * (a * p);
      assert (a * Power2(k) + b) / 2 == a * p + b / 2 && (a * Power2(k) + b) % 2 == b % 2;
      BitsConcat(a, b / 2, n, k - 1);
      assert Bits(a, n) + (Bits(b / 2, k - 1) + [b % 2 == 1]) == (Bits(a, n) + Bits(b / 2, k - 1)) + [b % 2 == 1];
    }
  }

  lemma {:induction false} AppendByte(a: nat, x: Byte, n: nat)
    ensures Bits(a * 256 + x, n + 8) == Bits(a, n) + Bits(x, 8)
  {
    assert Power2(8) == 256 by { assert Power2(4) == 16; }
    BitsConcat(a, x, n, 8);
  }

  lemma {:induction false} AppendSextet(a: nat, v: Sextet, n: nat)
    ensures Bits(a * 64 + v, n + 6) == Bits(a, n) + Bits(v, 6)
  {
    assert Power2(6) == 64 by { assert Power2(3) == 8; }
    BitsConcat(a, v, n, 6);
  }

  lemma {:induction false} ByteBits(x: Byte, y: Byte, z: Byte)
    ensures BitsOf([x, y, z], 8) == Bits((x * 256 + y) * 256 + z, 24)
  {
    hide Bits, BitsOf;
    AppendByte(x, y, 8);
    AppendByte(x * 256 + y, z, 16);
    BitsOfThree(x, y, z, 8);
  }

  lemma {:induction false} SextetBits(a: Sextet, b: Sextet, c: Sextet, d: Sextet)
    ensures BitsOf([a, b, c, d], 6) == Bits(((a * 64 + b) * 64 + c) * 64 + d, 24)
  {
    hide Bits, BitsOf;
    AppendSextet(a, b, 6);
    AppendSextet(a * 64 + b, c, 12);
    AppendSextet((a * 64 + b) * 64 + c, d, 18);
    BitsOfFour(a, b, c, d, 6);
  }

  lemma {:induction false} GroupValue(x: Byte, y: Byte, z: Byte)
    ensures (x * 256 + y) * 256 + z == ((SextetA(x) * 64 + SextetB(x, y)) * 64 + SextetC(y, z)) * 64 + SextetD(z)
  {
    assert x == 4 * (x / 4) + x % 4 && y == 16 * (y / 16) + y % 16 && z == 64 * (z / 64) + z % 64;
  }

  /** Three bytes and their four sextets are the same 24 bits. */
  lemma {:induction false} GroupBits(x: Byte, y: Byte, z: Byte)
    ensures BitsOf([x, y, z], 8) == BitsOf([SextetA(x), SextetB(x, y), SextetC(y, z), SextetD(z)], 6)
  {
    hide Bits, BitsOf, SextetA, SextetB, SextetC, SextetD;
    ByteBits(x, y, z);
    SextetBits(SextetA(x), SextetB(x, y), SextetC(y, z), SextetD(z));
    GroupValue(x, y, z);
  }

  lemma {:induction false} BitsOfCons(x: nat, rest: seq<nat>, width: nat)
    ensures BitsOf([x] + rest, width) == Bits(x, width) + BitsOf(rest, width)
  {
    assert ([x] + rest)[1..] == rest;
  }

  lemma {:induction false} BitsOfThree(x: nat, y: nat, z: nat, width: nat)
    ensures BitsOf([x, y, z], width) == Bits(x, width) + Bits(y, width) + Bits(z, width)
  {
    BitsOfCons(z, [], width);
    BitsOfCons(y, [z], width);
    BitsOfCons(x, [y, z], width);
    assert [x] + [y, z] == [x, y, z] && [y] + [z] == [y, z] && [z] + [] == [z];
  }

  lemma {:induction false} BitsOfFour(a: nat, b: nat, c: nat, d: nat, width: nat)
    ensures BitsOf([a, b, c, d], width) == Bits(a, width) + Bits(b, width) + Bits(c, width) + Bits(d, width)
  {
    hide Bits, BitsOf;
    BitsOfThree(b, c, d, width);
    BitsOfCons(a, [b, c, d], width);
    assert [a] + [b, c, d] == [a, b, c, d];
    assert Bits(a, width) + (Bits(b, width) + Bits(c, width) + Bits(d, width))
        == Bits(a, width) + Bits(b, width) + Bits(c, width) + Bits(d, width);
  }

  lemma {:induction false} BitsOfAppend(a: seq<nat>, b: seq<nat>, width: nat)
    ensures BitsOf(a + b, width) == BitsOf(a, width) + BitsOf(b, width)
  {
    if a == [] {
      assert a + b == b;
    } else {
      assert (a + b)[1..] == a[1..] + b;
      BitsOfAppend(a[1..], b, width);
    }
  }

  function Zeros(n: nat): (bits: seq<bool>)
  {
    seq(n, i => false)
  }

  lemma {:induction false} BitsOfZero(n: nat)
    ensures Bits(0, n) == Zeros(n)
  {
    if n > 0 {
      BitsOfZero(n - 1);
    }
  }

  lemma {:induction false} BitsOfTwo(x: nat, y: nat, width: nat)
    ensures BitsOf([x, y], width) == Bits(x, width) + Bits(y, width)
  {
    hide Bits, BitsOf;
    BitsOfCons(y, [], width);
    BitsOfCons(x, [y], width);
    assert [x] + [y] == [x, y] && [y] + [] == [y];
    BitsOfNone(width);
    assert Bits(y, width) + [] == Bits(y, width);
  }

  lemma {:induction false} BitsOfNone(width: nat)
    ensures BitsOf([], width) == []
  {
  }

  lemma {:induction false} BitsOfOne(x: nat, width: nat)
    ensures BitsOf([x], width) == Bits(x, width)
  {
    hide Bits, BitsOf;
    BitsOfCons(x, [], width);
    assert [x] + [] == [x];
    BitsOfNone(width);
    assert Bits(x, width) + [] == Bits(x, width);
  }

  /** The bits of a number shifted to the left by two or four. */
  lemma {:induction false} ShiftedBits(v: nat, n: nat)
    ensures Bits(v * 4, n + 2) == Bits(v, n) + Zeros(2)
    ensures Bits(v * 16, n + 4) == Bits(v, n) + Zeros(4)
  {
    assert Power2(2) == 4 && Power2(4) == 16;
    BitsConcat(v, 0, n, 2);
    BitsConcat(v, 0, n, 4);
    BitsOfZero(2);
    BitsOfZero(4);
  }

  /** A last group of one byte: its eight bits and four zeros, in two sextets. */
  lemma {:induction false} OneByteBits(x: Byte)
    ensures BitsOf([SextetA(x), SextetB(x, 0)], 6) == BitsOf([x], 8) + Zeros(4)
  {
    assert SextetA(x) * 64 + SextetB(x, 0) == x * 16;
    hide *;
    BitsOfTwo(SextetA(x), SextetB(x, 0), 6);
    AppendSextet(SextetA(x), SextetB(x, 0), 6);
    ShiftedBits(x, 8);
    BitsOfOne(x, 8);
  }

  lemma {:induction false} TwoByteValue(x: Byte, y: Byte)
    ensures (SextetA(x) * 64 + SextetB(x, y)) * 64 + SextetC(y, 0) == (x * 256 + y) * 4
  {
    assert x == 4 * (x / 4) + x % 4 && y == 16 * (y / 16) + y % 16;
  }

  /** A last group of two bytes: their 16 bits and two zeros, in three sextets. */
  lemma {:induction false} TwoByteBits(x: Byte, y: Byte)
    ensures BitsOf([SextetA(x), SextetB(x, y), SextetC(y, 0)], 6) == BitsOf([x, y], 8) + Zeros(2)
  {
    hide *;
    TwoByteValue(x, y);
    BitsOfThree(SextetA(x), SextetB(x, y), SextetC(y, 0), 6);
    AppendSextet(SextetA(x), SextetB(x, y), 6);
    AppendSextet(SextetA(x) * 64 + SextetB(x, y), SextetC(y, 0), 12);
    ShiftedBits(x * 256 + y, 16);
    AppendByte(x, y, 8);
    BitsOfTwo(x, y, 8);
  }

  function Padding(length: nat): (bits: seq<bool>)
  {
    Zeros(if length % 3 == 0 then 0 else if length % 3 == 1 then 4 else 2)
  }

  lemma {:induction false} GroupKeepsBits(x: Byte, y: Byte, z: Byte, rest: Bytes)
    requires BitsOf(ToSextets(rest), 6) == BitsOf(rest, 8) + Padding(|rest|)
    ensures BitsOf(ToSextets([x, y, z] + rest), 6) == BitsOf([x, y, z] + rest, 8) + Padding(3 + |rest|)
  {
    hide *;
    var (group, sextets) := ([x, y, z], [SextetA(x), SextetB(x, y), SextetC(y, z), SextetD(z)]);
    GroupBits(x, y, z);
    ToSextetsGroup(x, y, z, rest);
    BitsOfAppend(group, rest, 8);
    BitsOfAppend(sextets, ToSextets(rest), 6);
    PaddingPeriod(|rest|);
    Regroup(BitsOf(group, 8), BitsOf(rest, 8), Padding(|rest|));
  }

  lemma {:induction false} PaddingPeriod(n: nat)
    ensures Padding(3 + n) == Padding(n)
  {
  }

  /**
   The encoding is the bit string of the bytes cut into sextets, filled up with zero bits: none,
   four or two of them. For the 16 bytes of a UUID: 128 bits, four zeros, 22 sextets.
   */
  lemma {:induction false} EncodeKeepsBits(bs: Bytes)
    ensures BitsOf(ToSextets(bs), 6) == BitsOf(bs, 8) + Padding(|bs|)
  {
    if |bs| == 0 {
      assert BitsOf(ToSextets(bs), 6) == [] && BitsOf(bs, 8) == [];
    } else if |bs| == 1 {
      OneByteBits(bs[0]);
      assert bs == [bs[0]];
    } else if |bs| == 2 {
      TwoByteBits(bs[0], bs[1]);
      assert bs == [bs[0], bs[1]];
    } else {
      hide BitsOf, ToSextets;
      EncodeKeepsBits(bs[3..]);
      GroupKeepsBits(bs[0], bs[1], bs[2], bs[3..]);
      assert bs == [bs[0], bs[1], bs[2]] + bs[3..];
    }
  }

  // ----- UUID text -----

  /** ASCII upper case to lower case. */
  function LowerChar(c: Byte): (r: Byte)
  {
    if 65 <= c <= 90 then c + 32 else c
  }

  function Lower(cs: Bytes): (r: Bytes)
    ensures |r| == |cs|
    ensures forall i :: 0 <= i < |cs| ==> r[i] == LowerChar(cs[i])
  {
    seq(|cs|, i requires 0 <= i < |cs| => LowerChar(cs[i]))
  }

  const HEX := "0123456789abcdef"

  lemma {:induction false} HexCharIsDigit(n: Nibble)
    ensures HexChar(n) == HEX[n] as int && HexNibble(HexChar(n)) == Some(n)
  {
  }

  /** Each byte gives two digits, the more significant one first. */
  lemma {:induction false} HexDigits(bs: Bytes, i: nat)
    requires i < |bs|
    ensures Hex(bs)[2 * i] == HEX[bs[i] / 16] as int && Hex(bs)[2 * i + 1] == HEX[bs[i] % 16] as int
  {
    if i == 0 {
      HexCharIsDigit(bs[0] / 16);
      HexCharIsDigit(bs[0] % 16);
    } else {
      HexDigits(bs[1..], i - 1);
      hide HexChar;
      assert Hex(bs)[2 * i] == Hex(bs[1..])[2 * (i - 1)] && Hex(bs)[2 * i + 1] == Hex(bs[1..])[2 * (i - 1) + 1];
    }
  }

  lemma {:induction false} HexCons(b: Byte, bs: Bytes)
    ensures Hex([b] + bs) == [HexChar(b / 16), HexChar(b % 16)] + Hex(bs)
  {
    hide HexChar;
    assert ([b] + bs)[1..] == bs;
  }

  lemma {:induction false} ParseHexCons(all: Bytes, x: Byte, y: Byte, cs: Bytes)
    requires |all| % 2 == 0 && |cs| % 2 == 0 && all == [x, y] + cs
    requires HexNibble(x).Some? && HexNibble(y).Some? && ParseHex(cs).Some?
    ensures ParseHex(all) == Some([FromNibbles(HexNibble(x).value, HexNibble(y).value)] + ParseHex(cs).value)
  {
    hide HexNibble, FromNibbles;
    assert all[2..] == cs;
  }

  lemma {:induction false} ParseHexOfHex(bs: Bytes)
    ensures ParseHex(Hex(bs)) == Some(bs)
  {
    if bs == [] {
      assert Hex(bs) == [];
    } else {
      assert FromNibbles(bs[0] / 16, bs[0] % 16) == bs[0];
      hide *;
      ParseHexOfHex(bs[1..]);
      HexCharIsDigit(bs[0] / 16);
      HexCharIsDigit(bs[0] % 16);
      assert bs == [bs[0]] + bs[1..];
      HexCons(bs[0], bs[1..]);
      ParseHexCons(Hex(bs), HexChar(bs[0] / 16), HexChar(bs[0] % 16), Hex(bs[1..]));
    }
  }

  lemma {:induction false} ParseHexAccepts(cs: Bytes)
    requires |cs| % 2 == 0
    ensures ParseHex(cs).Some? <==> forall i :: 0 <= i < |cs| ==> HexNibble(cs[i]).Some?
  {
    hide HexNibble, FromNibbles;
    if cs != [] {
      ParseHexAccepts(cs[2..]);
      assert forall i :: 2 <= i < |cs| ==> cs[i] == cs[2..][i - 2];
    }
  }

  lemma {:induction false} HexPair(x: Byte, y: Byte)
    requires HexNibble(x).Some? && HexNibble(y).Some?
    ensures var b := FromNibbles(HexNibble(x).value, HexNibble(y).value);
      HexChar(b / 16) == LowerChar(x) && HexChar(b % 16) == LowerChar(y)
  {
    var (high, low) := (HexNibble(x).value, HexNibble(y).value);
    assert FromNibbles(high, low) / 16 == high && FromNibbles(high, low) % 16 == low;
  }

  lemma {:induction false} LowerPair(cs: Bytes)
    requires |cs| >= 2
    ensures Lower(cs) == [LowerChar(cs[0]), LowerChar(cs[1])] + Lower(cs[2..])
  {
    hide LowerChar;
  }

  lemma {:induction false} HexOfParseHex(cs: Bytes)
    requires |cs| % 2 == 0 && ParseHex(cs).Some?
    ensures Hex(ParseHex(cs).value) == Lower(cs)
  {
    hide HexNibble, HexChar, FromNibbles, LowerChar, Lower;
    if cs != [] {
      HexOfParseHex(cs[2..]);
      HexPair(cs[0], cs[1]);
      LowerPair(cs);
      assert ParseHex(cs).value[1..] == ParseHex(cs[2..]).value;
    }
  }

  lemma {:induction false} HyphensRoundTrip(h: Bytes)
    requires |h| == 32
    ensures HyphensInPlace(WithHyphens(h)) && WithoutHyphens(WithHyphens(h)) == h
  {
    var s := WithHyphens(h);
    assert s[..8] == h[..8] && s[9..13] == h[8..12] && s[14..18] == h[12..16];
    assert s[19..23] == h[16..20] && s[24..] == h[20..];
    assert h == h[..8] + h[8..12] + h[12..16] + h[16..20] + h[20..];
  }

  lemma {:induction false} HyphensBack(s: Bytes)
    requires |s| == 36 && HyphensInPlace(s)
    ensures WithHyphens(WithoutHyphens(s)) == s
  {
    var h := WithoutHyphens(s);
    assert h[..8] == s[..8] && h[8..12] == s[9..13] && h[12..16] == s[14..18];
    assert h[16..20] == s[19..23] && h[20..] == s[24..];
    assert s == s[..8] + [s[8]] + s[9..13] + [s[13]] + s[14..18] + [s[18]] + s[19..23] + [s[23]] + s[24..];
  }

  lemma {:induction false} LowerKeepsHyphens(h: Bytes)
    requires |h| == 32
    ensures WithHyphens(Lower(h)) == Lower(WithHyphens(h))
  {
  }

  lemma {:induction false} ParseHyphenated(u: Uuid)
    ensures ParseUuid(Hyphenated(u)) == Some(u)
  {
    HyphensRoundTrip(Hex(u));
    ParseHexOfHex(u);
    hide WithHyphens, WithoutHyphens, Hex, ParseHex;
  }

  lemma {:induction false} HyphenatedColonFree(u: Uuid)
    ensures COLON !in Hyphenated(u)
  {
    var h := Hex(u);
    hide Hex;
    assert COLON !in h[..8] && COLON !in h[8..12] && COLON !in h[12..16] && COLON !in h[16..20] && COLON !in h[20..];
  }

  // ----- fields -----

  lemma {:induction false} SplitColonFree(a: Bytes)
    requires COLON !in a
    ensures Split(a) == [a]
  {
    if a != [] {
      SplitColonFree(a[1..]);
      assert a == [a[0]] + a[1..];
    }
  }

  lemma {:induction false} SplitJoin(a: Bytes, rest: Bytes)
    requires COLON !in a && COLON !in rest
    ensures Split(Join(a, rest)) == [a, rest]
  {
    if a == [] {
      assert Join(a, rest)[1..] == rest;
      SplitColonFree(rest);
    } else {
      assert Join(a, rest)[1..] == Join(a[1..], rest);
      SplitJoin(a[1..], rest);
      assert a == [a[0]] + a[1..];
    }
  }

  lemma {:induction false} SplitOne(s: Bytes)
    requires |Split(s)| == 1
    ensures COLON !in s && Split(s) == [s]
  {
    if s != [] {
      SplitOne(s[1..]);
      assert s == [s[0]] + s[1..];
    }
  }

  lemma {:induction false} SplitTwo(s: Bytes)
    requires |Split(s)| == 2
    ensures COLON !in Split(s)[0] && COLON !in Split(s)[1] && s == Join(Split(s)[0], Split(s)[1])
  {
    if s[0] == COLON {
      SplitOne(s[1..]);
    } else {
      SplitTwo(s[1..]);
      assert s == [s[0]] + s[1..];
    }
  }

  // ----- the two conversions -----

  lemma {:induction false} WireOf(u: Uuid, rest: Bytes)
    requires COLON !in rest
    ensures ToWireQualified(Join(Encode(u), rest)) == Some(Join(Hyphenated(u), rest))
  {
    SplitJoin(Encode(u), rest);
    DecodeEncode(u);
    hide Encode, Hyphenated, Decode, Split, Join;
  }

  lemma {:induction false} E2eiOf(u: Uuid, rest: Bytes)
    requires COLON !in rest
    ensures ToQualifiedE2ei(Join(Hyphenated(u), rest)) == Some(Join(Encode(u), rest))
  {
    HyphenatedColonFree(u);
    SplitJoin(Hyphenated(u), rest);
    ParseHyphenated(u);
    hide Encode, Hyphenated, ParseUuid, Split, Join;
  }

  /** The base64url form is accepted exactly when it is the encoding of some UUID, a colon and one more field. */
  lemma {:induction false} WireAccepts(id: Bytes)
    ensures ToWireQualified(id).Some? <==> exists u: Uuid, rest: Bytes :: COLON !in rest && id == Join(Encode(u), rest)
  {
    if ToWireQualified(id).Some? {
      var u, rest := WireParts(id);
    }
    forall u: Uuid, rest: Bytes | COLON !in rest && id == Join(Encode(u), rest)
      ensures ToWireQualified(id).Some?
    {
      WireOf(u, rest);
    }
  }

  lemma {:induction false} WireParts(id: Bytes) returns (u: Uuid, rest: Bytes)
    requires ToWireQualified(id).Some?
    ensures COLON !in rest && id == Join(Encode(u), rest)
  {
    var fields := Split(id);
    u, rest := Decode(fields[0]).value, fields[1];
    SplitTwo(id);
    EncodeDecode(fields[0]);
  }

  /** There and back is exactly where it started. */
  lemma {:induction false} WireRoundTrip(id: Bytes)
    requires ToWireQualified(id).Some?
    ensures ToQualifiedE2ei(ToWireQualified(id).value) == Some(id)
  {
    hide *;
    var u, rest := WireParts(id);
    WireOf(u, rest);
    E2eiOf(u, rest);
  }

  /** The UUID form a client id stands for: lower case, with hyphens. */
  function Normal(id: Bytes): (r: Bytes)
    requires ToQualifiedE2ei(id).Some?
  {
    var fields := Split(id);
    Join(WithHyphens(Lower(Digits(fields[0]).value)), fields[1])
  }

  lemma {:induction false} E2eiParts(id: Bytes) returns (u: Uuid, rest: Bytes)
    requires ToQualifiedE2ei(id).Some?
    ensures COLON !in rest && Normal(id) == Join(Hyphenated(u), rest)
    ensures ToQualifiedE2ei(id) == Some(Join(Encode(u), rest))
  {
    var fields := Split(id);
    u, rest := ParseUuid(fields[0]).value, fields[1];
    SplitTwo(id);
    HexOfParseHex(Digits(fields[0]).value);
    hide Encode, Digits, Split, Join, WithHyphens, ParseHex, Hex;
  }

  /** Back and there is the normal form. */
  lemma {:induction false} E2eiRoundTrip(id: Bytes)
    requires ToQualifiedE2ei(id).Some?
    ensures ToWireQualified(ToQualifiedE2ei(id).value) == Some(Normal(id))
  {
    hide *;
    var u, rest := E2eiParts(id);
    WireOf(u, rest);
  }

  /** A hyphenated id is normal up to the case of its letters. */
  lemma {:induction false} NormalOfHyphenated(id: Bytes)
    requires ToQualifiedE2ei(id).Some? && |Split(id)[0]| == 36
    ensures Normal(id) == Join(Lower(Split(id)[0]), Split(id)[1])
  {
    HyphensBack(Split(id)[0]);
    LowerKeepsHyphens(WithoutHyphens(Split(id)[0]));
    hide WithHyphens, WithoutHyphens, Lower, Split, Join, ParseHex;
  }

  /** No two ids in base64url form become the same one. */
  lemma {:induction false} WireInjective(a: Bytes, b: Bytes)
    requires ToWireQualified(a).Some? && ToWireQualified(a) == ToWireQualified(b)
    ensures a == b
  {
    WireRoundTrip(a);
    WireRoundTrip(b);
  }

  /** Two ids in UUID form become the same one exactly when their normal forms agree. */
  lemma {:induction false} E2eiInjectiveOnNormalForms(a: Bytes, b: Bytes)
    requires ToQualifiedE2ei(a).Some? && ToQualifiedE2ei(b).Some?
    ensures ToQualifiedE2ei(a) == ToQualifiedE2ei(b) <==> Normal(a) == Normal(b)
  {
    E2eiRoundTrip(a);
    E2eiRoundTrip(b);
    hide ToQualifiedE2ei, ToWireQualified;
    if Normal(a) == Normal(b) {
      NormalConverts(a);
      NormalConverts(b);
    }
  }

  /** Writing an id in normal form does not change what it converts to. */
  lemma {:induction false} NormalConverts(id: Bytes)
    requires ToQualifiedE2ei(id).Some?
    ensures ToQualifiedE2ei(Normal(id)) == ToQualifiedE2ei(id)
  {
    hide *;
    var u, rest := E2eiParts(id);
    E2eiOf(u, rest);
  }

  /** Whatever either conversion answers splits into exactly two fields again. */
  lemma {:induction false} OutputsHaveTwoFields(id: Bytes)
    ensures ToWireQualified(id).Some? ==> |Split(ToWireQualified(id).value)| == 2
    ensures ToQualifiedE2ei(id).Some? ==> |Split(ToQualifiedE2ei(id).value)| == 2
  {
    hide *;
    if ToWireQualified(id).Some? {
      var u, rest := WireParts(id);
      WireOf(u, rest);
      HyphenatedColonFree(u);
      SplitJoin(Hyphenated(u), rest);
    }
    if ToQualifiedE2ei(id).Some? {
      var u, rest := E2eiParts(id);
      SplitJoin(Encode(u), rest);
    }
  }
}
