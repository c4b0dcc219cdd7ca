/** Byte encodings used to build the HTTP Basic credential: .NET's
    `Encoding.ASCII` and the base 64 encoding of section 4 of RFC 4648
    (`Convert.ToBase64String`), with a decoder as its reference inverse. */
module Encoding {
  import opened Wrappers

  /** An octet. */
  type byte = b: int | 0 <= b < 256

  /** The byte `Encoding.ASCII` substitutes for a character it cannot encode. */
  const QuestionMark: byte := 63

  predicate IsAscii(s: string) {
    forall i :: 0 <= i < |s| ==> s[i] as int < 128
  }

  /** `Encoding.ASCII.GetBytes`: one byte per character, the character's
      code below 128 and the replacement `?` otherwise. */
  function AsciiBytes(s: string): (b: seq<byte>)
    ensures |b| == |s|
  {
    seq(|s|, i requires 0 <= i < |s| => if s[i] as int < 128 then s[i] as int else QuestionMark)
  }

  /** `Encoding.ASCII.GetString`: bytes above 127 read back as `?`. */
  function AsciiString(b: seq<byte>): (s: string)
    ensures |s| == |b|
  {
    seq(|b|, i requires 0 <= i < |b| => if b[i] < 128 then b[i] as char else '?')
  }

  /** The ASCII encoding loses nothing exactly when the text is ASCII. */
  lemma AsciiRoundTrip(s: string)
    ensures AsciiString(AsciiBytes(s)) == s <==> IsAscii(s)
  {
    if !IsAscii(s) {
      var i :| 0 <= i < |s| && s[i] as int >= 128;
      assert AsciiString(AsciiBytes(s))[i] == '?';
    }
  }

  /** Table 1 of RFC 4648: the 64 symbols of the base 64 alphabet. */
  function Base64Char(i: int): char
    requires 0 <= i < 64
  {
    if i < 26 then (65 + i) as char
    else if i < 52 then (97 + i - 26) as char
    else if i < 62 then (48 + i - 52) as char
    else if i == 62 then '+'
    else '/'
  }

  /** The value of a base 64 symbol; `None` for any other character,
      including the pad. */
  function Base64Index(c: char): (r: Option<int>)
    ensures r.Some? ==> 0 <= r.value < 64 && Base64Char(r.value) == c
  {
    if 'A' <= c <= 'Z' then Some(c as int - 65)
    else if 'a' <= c <= 'z' then Some(c as int - 97 + 26)
    else if '0' <= c <= '9' then Some(c as int - 48 + 52)
    else if c == '+' then Some(62)
    else if c == '/' then Some(63)
    else None
  }

  lemma Base64IndexOfChar(i: int)
    requires 0 <= i < 64
    ensures Base64Index(Base64Char(i)) == Some(i)
  {
  }

  const Pad := '='

  /** Section 4 of RFC 4648: each group of three bytes becomes four symbols;
      a final group of one or two bytes is completed with `=` pads. */
  function Base64Encode(b: seq<byte>): (s: string)
    ensures |s| == (|b| + 2) / 3 * 4
    decreases |b|
  {
    if |b| == 0 then []
    else if |b| == 1 then
      [Base64Char(b[0] / 4), Base64Char(b[0] % 4 * 16), Pad, Pad]
    else if |b| == 2 then
      [Base64Char(b[0] / 4), Base64Char(b[0] % 4 * 16 + b[1] / 16), Base64Char(b[1] % 16 * 4), Pad]
    else
      [Base64Char(b[0] / 4), Base64Char(b[0] % 4 * 16 + b[1] / 16),
       Base64Char(b[1] % 16 * 4 + b[2] / 64), Base64Char(b[2] % 64)]
      + Base64Encode(b[3..])
  }

  function Byte0(i0: int, i1: int): byte
    requires 0 <= i0 < 64 && 0 <= i1 < 64
  {
    i0 * 4 + i1 / 16
  }

  function Byte1(i1: int, i2: int): byte
    requires 0 <= i1 < 64 && 0 <= i2 < 64
  {
    i1 % 16 * 16 + i2 / 4
  }

  function Byte2(i2: int, i3: int): byte
    requires 0 <= i2 < 64 && 0 <= i3 < 64
  {
    i2 % 4 * 64 + i3
  }

  /** Decoder for the encoding above: four symbols give three bytes, and a
      last quantum ending in `==` or `=` gives one or two bytes. Any other
      character, or a length that is not a multiple of four, is rejected. */
  function Base64Decode(s: string): Option<seq<byte>>
    decreases |s|
  {
    if |s| == 0 then Some([])
    else if |s| < 4 then None
    else
      var i0, i1, i2, i3 := Base64Index(s[0]), Base64Index(s[1]), Base64Index(s[2]), Base64Index(s[3]);
      if i0.None? || i1.None? then None
      else if |s| == 4 && s[2] == Pad && s[3] == Pad then
        Some([Byte0(i0.value, i1.value)])
      else if i2.None? then None
      else if |s| == 4 && s[3] == Pad then
        Some([Byte0(i0.value, i1.value), Byte1(i1.value, i2.value)])
      else if i3.None? then None
      else
        match Base64Decode(s[4..])
        case None => None
        case Some(rest) =>
          Some([Byte0(i0.value, i1.value), Byte1(i1.value, i2.value), Byte2(i2.value, i3.value)] + rest)
  }

  /** The symbol values of one group invert back to its bytes. */
  lemma GroupRoundTrip(b0: byte, b1: byte, b2: byte)
    ensures Byte0(b0 / 4, b0 % 4 * 16 + b1 / 16) == b0
    ensures Byte1(b0 % 4 * 16 + b1 / 16, b1 % 16 * 4 + b2 / 64) == b1
    ensures Byte2(b1 % 16 * 4 + b2 / 64, b2 % 64) == b2
  {
  }

  /** A full quantum of four alphabet symbols decodes to its three bytes
      followed by whatever the rest decodes to. */
  lemma DecodeFullQuantum(i0: int, i1: int, i2: int, i3: int, rest: string)
    requires 0 <= i0 < 64 && 0 <= i1 < 64 && 0 <= i2 < 64 && 0 <= i3 < 64
    ensures Base64Decode([Base64Char(i0), Base64Char(i1), Base64Char(i2), Base64Char(i3)] + rest)
         == match Base64Decode(rest)
            case None => None
            case Some(r) => Some([Byte0(i0, i1), Byte1(i1, i2), Byte2(i2, i3)] + r)
  {
    var s := [Base64Char(i0), Base64Char(i1), Base64Char(i2), Base64Char(i3)] + rest;
    Base64IndexOfChar(i0);
    Base64IndexOfChar(i1);
    Base64IndexOfChar(i2);
    Base64IndexOfChar(i3);
    assert s[4..] == rest;
  }

  /** A final quantum of one byte, `xy==`, decodes to that byte. */
  lemma DecodeOneByte(b0: byte)
    ensures Base64Decode(Base64Encode([b0])) == Some([b0])
  {
    Base64IndexOfChar(b0 / 4);
    Base64IndexOfChar(b0 % 4 * 16);
    GroupRoundTrip(b0, 0, 0);
  }

  /** A final quantum of two bytes, `xyz=`, decodes to those bytes. */
  lemma DecodeTwoBytes(b0: byte, b1: byte)
    ensures Base64Decode(Base64Encode([b0, b1])) == Some([b0, b1])
  {
    Base64IndexOfChar(b0 / 4);
    Base64IndexOfChar(b0 % 4 * 16 + b1 / 16);
    Base64IndexOfChar(b1 % 16 * 4);
    GroupRoundTrip(b0, b1, 0);
  }

  /** Decoding undoes encoding, for every byte sequence. */
  lemma {:induction false} Base64RoundTrip(b: seq<byte>)
    ensures Base64Decode(Base64Encode(b)) == Some(b)
    decreases |b|
  {
    if |b| == 1 {
      assert b == [b[0]];
      DecodeOneByte(b[0]);
    } else if |b| == 2 {
      assert b == [b[0], b[1]];
      DecodeTwoBytes(b[0], b[1]);
    } else if |b| > 2 {
      Base64RoundTrip(b[3..]);
      assert b == [b[0], b[1], b[2]] + b[3..];
      DecodeLeadingGroup(b[0], b[1], b[2], b[3..]);
    }
  }

  /** Three leading bytes come back ahead of whatever the rest decodes to. */
  lemma DecodeLeadingGroup(b0: byte, b1: byte, b2: byte, t: seq<byte>)
    requires Base64Decode(Base64Encode(t)) == Some(t)
    ensures Base64Decode(Base64Encode([b0, b1, b2] + t)) == Some([b0, b1, b2] + t)
  {
    var b := [b0, b1, b2] + t;
    var i0, i1, i2, i3 := b0 / 4, b0 % 4 * 16 + b1 / 16, b1 % 16 * 4 + b2 / 64, b2 % 64;
    assert b[3..] == t;
    assert Base64Encode(b) == [Base64Char(i0), Base64Char(i1), Base64Char(i2), Base64Char(i3)] + Base64Encode(t);
    DecodeFullQuantum(i0, i1, i2, i3, Base64Encode(t));
    GroupRoundTrip(b0, b1, b2);
  }
}
