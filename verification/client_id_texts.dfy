/** Which texts are client ids, written out: the digits, the layouts of a UUID, and the conversions of both forms. */
module ClientIdTexts {
  import opened Wrappers
  import opened ClientIds
  import opened ClientIdLaws

  /** The bytes of an ASCII text. */
  function Text(s: string): (bs: Bytes)
    requires forall i :: 0 <= i < |s| ==> s[i] as int < 128
    ensures |bs| == |s| && forall i :: 0 <= i < |s| ==> bs[i] == s[i] as int
  {
    seq(|s|, i requires 0 <= i < |s| => s[i] as int)
  }

  // ----- digits -----

  /** Lower case is that of the letters A to Z; nothing else changes. */
  lemma {:induction false} LowerCharIs(c: Byte)
    ensures forall i :: 0 <= i < 26 ==> (c == UPPER[i] as int ==> LowerChar(c) == LOWER[i] as int)
    ensures (forall i :: 0 <= i < 26 ==> c != UPPER[i] as int) ==> LowerChar(c) == c
  {
    assert forall i :: 0 <= i < 26 ==> UPPER[i] as int == 65 + i && LOWER[i] as int == 97 + i;
    if 65 <= c <= 90 {
      assert c == UPPER[c - 65] as int;
    }
  }

  /** A hexadecimal digit is one of sixteen, in either case. */
  lemma {:induction false} HexNibbleIs(c: Byte, n: Nibble)
    ensures HexNibble(c) == Some(n) <==> LowerChar(c) == HEX[n] as int
  {
    HexCharIsDigit(n);
    assert forall i :: 0 <= i < 10 ==> HEX[i] as int == 48 + i;
    assert forall i :: 10 <= i < 16 ==> HEX[i] as int == 97 + (i - 10);
  }

  /** Hexadecimal text is read exactly when it is that of the bytes, in any case. */
  lemma {:induction false} HexIs(cs: Bytes, bs: Bytes)
    requires |cs| % 2 == 0
    ensures ParseHex(cs) == Some(bs) <==> Lower(cs) == Hex(bs)
  {
    hide *;
    if ParseHex(cs) == Some(bs) {
      HexOfParseHex(cs);
    }
    if Lower(cs) == Hex(bs) {
      forall i | 0 <= i < |cs|
        ensures HexNibble(cs[i]).Some?
      {
        HexDigitIsRead(cs, bs, i);
      }
      ParseHexAccepts(cs);
      HexOfParseHex(cs);
      ParseHexOfHex(bs);
      ParseHexOfHex(ParseHex(cs).value);
    }
  }

  lemma {:induction false} HexDigitIsRead(cs: Bytes, bs: Bytes, i: nat)
    requires Lower(cs) == Hex(bs) && i < |cs|
    ensures HexNibble(cs[i]).Some?
  {
    hide HexNibble, LowerChar, HexChar;
    assert i == 2 * (i / 2) + i % 2;
    HexDigits(bs, i / 2);
    HexNibbleIs(cs[i], if i % 2 == 0 then bs[i / 2] / 16 else bs[i / 2] % 16);
  }

  // ----- layouts -----

  function Hyphens(h: Bytes): (s: Bytes)
    requires |h| == 32
  {
    h[..8] + Text("-") + h[8..12] + Text("-") + h[12..16] + Text("-") + h[16..20] + Text("-") + h[20..]
  }

  /** The four ways of writing down 32 digits: plain, hyphenated, braced, and as a URN. */
  predicate IsLayout(s: Bytes, h: Bytes)
    requires |h| == 32
  {
    s in {h, Hyphens(h), Text("{") + Hyphens(h) + Text("}"), Text("urn:uuid:") + Hyphens(h)}
  }

  lemma {:induction false} HyphensAre(h: Bytes)
    requires |h| == 32
    ensures Hyphens(h) == WithHyphens(h)
  {
    assert Text("-") == [HYPHEN];
  }

  lemma {:induction false} UrnIs()
    ensures Text("urn:uuid:") == URN_UUID && Text("{") == [123] && Text("}") == [125] && Text(":") == [COLON]
  {
  }

  lemma {:induction false} BracedParts(s: Bytes, t: Bytes)
    requires |t| == 36
    ensures s == [123] + t + [125] <==> |s| == 38 && s[0] == 123 && s[37] == 125 && s[1..37] == t
  {
    if |s| == 38 && s[0] == 123 && s[37] == 125 && s[1..37] == t {
      assert s == [s[0]] + s[1..37] + [s[37]];
    }
  }

  lemma {:induction false} UrnParts(s: Bytes, t: Bytes)
    requires |t| == 36
    ensures s == URN_UUID + t <==> |s| == 45 && s[..9] == URN_UUID && s[9..] == t
  {
    if |s| == 45 && s[..9] == URN_UUID && s[9..] == t {
      assert s == s[..9] + s[9..];
    }
  }

  lemma {:induction false} HyphenatedParts(t: Bytes, h: Bytes)
    requires |h| == 32
    ensures t == WithHyphens(h) <==> |t| == 36 && HyphensInPlace(t) && WithoutHyphens(t) == h
  {
    HyphensRoundTrip(h);
    if |t| == 36 && HyphensInPlace(t) && WithoutHyphens(t) == h {
      HyphensBack(t);
    }
    hide WithHyphens, WithoutHyphens;
  }

  /** The digits of a text are those it lays out. */
  lemma {:induction false} DigitsAre(s: Bytes, h: Bytes)
    requires |h| == 32
    ensures Digits(s) == Some(h) <==> IsLayout(s, h)
  {
    HyphensAre(h);
    UrnIs();
    HyphenatedParts(s, h);
    BracedParts(s, WithHyphens(h));
    UrnParts(s, WithHyphens(h));
    if |s| == 38 {
      HyphenatedParts(s[1..37], h);
    }
    if |s| == 45 {
      HyphenatedParts(s[9..], h);
    }
    hide WithHyphens, WithoutHyphens, HyphensInPlace, Hyphens, Text;
  }

  /**
   A text is read as a UUID exactly when it lays out the UUID's 32 digits, the more significant one of
   each byte first, in any case.
   */
  lemma {:induction false} ParseUuidIs(s: Bytes, u: Uuid)
    ensures ParseUuid(s) == Some(u) <==> exists h: Bytes :: |h| == 32 && Lower(h) == Hex(u) && IsLayout(s, h)
  {
    hide Digits, IsLayout, ParseHex, Lower, Hex;
    if ParseUuid(s) == Some(u) {
      var h := Digits(s).value;
      DigitsAre(s, h);
      HexIs(h, u);
    }
    forall h: Bytes | |h| == 32 && Lower(h) == Hex(u) && IsLayout(s, h)
      ensures ParseUuid(s) == Some(u)
    {
      DigitsAre(s, h);
      HexIs(h, u);
    }
  }

  // ----- the two conversions -----

  lemma {:induction false} JoinIs(a: Bytes, b: Bytes)
    ensures Join(a, b) == a + Text(":") + b
  {
    UrnIs();
  }

  predicate ColonFree(s: Bytes) {
    ':' as int !in s
  }

  /** An id consists of two fields without a colon. */
  predicate HasFields(id: Bytes, user: Bytes, rest: Bytes) {
    id == user + Text(":") + rest && ColonFree(user) && ColonFree(rest)
  }

  lemma {:induction false} FieldsAre(id: Bytes, user: Bytes, rest: Bytes)
    ensures Split(id) == [user, rest] <==> HasFields(id, user, rest)
  {
    UrnIs();
    JoinIs(user, rest);
    hide Join, Text;
    if HasFields(id, user, rest) {
      SplitJoin(user, rest);
    }
    if Split(id) == [user, rest] {
      SplitTwo(id);
    }
  }

  /** The base64url form: the encoding of a UUID; it becomes the hyphenated digits of that UUID. */
  lemma {:induction false} WireConverts(id: Bytes, u: Uuid, rest: Bytes)
    requires HasFields(id, Encode(u), rest)
    ensures ToWireQualified(id) == Some(Hyphens(Hex(u)) + Text(":") + rest)
  {
    FieldsAre(id, Encode(u), rest);
    DecodeEncode(u);
    HyphensAre(Hex(u));
    JoinIs(Hyphens(Hex(u)), rest);
    hide Encode, Decode, Split, Join, Text, Hyphens, WithHyphens, Hex;
  }

  /** The UUID form: any layout of the digits, in any case; it becomes the encoding of that UUID. */
  lemma {:induction false} E2eiConverts(id: Bytes, user: Bytes, h: Bytes, u: Uuid, rest: Bytes)
    requires HasFields(id, user, rest) && |h| == 32 && IsLayout(user, h) && Lower(h) == Hex(u)
    ensures ToQualifiedE2ei(id) == Some(Encode(u) + Text(":") + rest)
  {
    FieldsAre(id, user, rest);
    ParseUuidIs(user, u);
    JoinIs(Encode(u), rest);
    hide Encode, Split, Join, Text, Hex, Lower, IsLayout, ParseUuid;
  }

  /** And nothing else is accepted. */
  lemma {:induction false} E2eiRefuses(id: Bytes) returns (user: Bytes, h: Bytes, u: Uuid, rest: Bytes)
    requires ToQualifiedE2ei(id).Some?
    ensures HasFields(id, user, rest) && |h| == 32 && IsLayout(user, h) && Lower(h) == Hex(u)
  {
    user, rest := Split(id)[0], Split(id)[1];
    u := ParseUuid(user).value;
    FieldsAre(id, user, rest);
    ParseUuidIs(user, u);
    h :| |h| == 32 && Lower(h) == Hex(u) && IsLayout(user, h);
    hide Encode, Join, Text, Hex, Lower, IsLayout, ParseUuid;
  }

  /** So the UUID form is two fields, the first of them 32 hexadecimal digits of either case in one of the layouts. */
  lemma {:induction false} E2eiAccepts(id: Bytes)
    ensures ToQualifiedE2ei(id).Some? <==> exists user: Bytes, h: Bytes, rest: Bytes ::
      && HasFields(id, user, rest) && |h| == 32 && IsLayout(user, h)
      && forall i :: 0 <= i < 32 ==> LowerChar(h[i]) in Text(HEX)
  {
    if ToQualifiedE2ei(id).Some? {
      var user, h, u, rest := E2eiRefuses(id);
      DigitsOfHex(u);
      assert forall i :: 0 <= i < 32 ==> LowerChar(h[i]) == Hex(u)[i];
    }
    forall user: Bytes, h: Bytes, rest: Bytes |
      && HasFields(id, user, rest) && |h| == 32 && IsLayout(user, h)
      && forall i :: 0 <= i < 32 ==> LowerChar(h[i]) in Text(HEX)
      ensures ToQualifiedE2ei(id).Some?
    {
      var u := ReadHex(h);
      E2eiConverts(id, user, h, u, rest);
    }
  }

  lemma {:induction false} DigitsOfHex(u: Uuid)
    ensures forall i :: 0 <= i < 32 ==> Hex(u)[i] in Text(HEX)
  {
    forall i | 0 <= i < 32
      ensures Hex(u)[i] in Text(HEX)
    {
      HexDigits(u, i / 2);
      assert i == 2 * (i / 2) + i % 2;
      var n: Nibble := if i % 2 == 0 then u[i / 2] / 16 else u[i / 2] % 16;
      assert Hex(u)[i] == Text(HEX)[n];
    }
  }

  lemma {:induction false} ReadHex(h: Bytes) returns (u: Uuid)
    requires |h| == 32 && forall i :: 0 <= i < 32 ==> LowerChar(h[i]) in Text(HEX)
    ensures Lower(h) == Hex(u)
  {
    hide ParseHex, HexNibble, LowerChar, Lower;
    forall i | 0 <= i < 32
      ensures HexNibble(h[i]).Some?
    {
      var n :| 0 <= n < 16 && Text(HEX)[n] == LowerChar(h[i]);
      HexNibbleIs(h[i], n);
    }
    ParseHexAccepts(h);
    u := ParseHex(h).value;
    HexIs(h, u);
  }
}
