// The two text encodings the client relies on: standard padded Base64
// (section 4 of RFC 4648), used for the Basic credentials, and lower-case
// Base16 (section 8 of RFC 4648), used for serialized transactions. Each
// encoder comes with a decoder and the round trip between them.

module Encoding {
  import opened GoTypes

  // ---------------------------------------------------------------------
  // Base64, standard alphabet, with padding
  // ---------------------------------------------------------------------

  type sextet = x: int | 0 <= x < 64

  /** The padding character `=`. */
  const Pad: byte := 61

  /** The character of the standard alphabet `A-Z a-z 0-9 + /` for `v`. */
  function Base64Char(v: sextet): (c: byte)
    ensures c != Pad
  {
    if v < 26 then 65 + v
    else if v < 52 then 97 + (v - 26)
    else if v < 62 then 48 + (v - 52)
    else if v == 62 then 43
    else 47
  }

  /** The value of an alphabet character; `None` for any other byte, padding included. */
  function Base64Value(c: byte): (r: Option<sextet>)
    ensures r.Some? ==> Base64Char(r.value) == c
  {
    if 65 <= c <= 90 then Some(c - 65)
    else if 97 <= c <= 122 then Some(c - 97 + 26)
    else if 48 <= c <= 57 then Some(c - 48 + 52)
    else if c == 43 then Some(62)
    else if c == 47 then Some(63)
    else None
  }

  lemma Base64ValueOfChar(v: sextet)
    ensures Base64Value(Base64Char(v)) == Some(v)
  {
  }

  /** Four characters per three bytes; a final group of one or two bytes is padded with `=`. */
  function Base64Encode(b: seq<byte>): (s: seq<byte>)
    ensures |s| == 4 * ((|b| + 2) / 3)
    decreases |b|
  {
    if |b| == 0 then []
    else if |b| == 1 then
      [Base64Char(b[0] / 4), Base64Char((b[0] % 4) * 16), Pad, Pad]
    else if |b| == 2 then
      [Base64Char(b[0] / 4), Base64Char((b[0] % 4) * 16 + b[1] / 16), Base64Char((b[1] % 16) * 4), Pad]
    else
      [Base64Char(b[0] / 4), Base64Char((b[0] % 4) * 16 + b[1] / 16),
       Base64Char((b[1] % 16) * 4 + b[2] / 64), Base64Char(b[2] % 64)]
      + Base64Encode(b[3..])
  }

  /**
   * Decodes padded Base64; `None` when `s` is not made of well-formed groups
   * of four. The pad bits of a final padded group must be zero (section 3.5
   * of RFC 4648), so every byte sequence has exactly one encoding this
   * decoder accepts (`Base64Canonical`).
   */
  function Base64Decode(s: seq<byte>): Option<seq<byte>>
    decreases |s|
  {
    if |s| == 0 then Some([])
    else if |s| < 4 then None
    else
      var a, b, c, d := Base64Value(s[0]), Base64Value(s[1]), Base64Value(s[2]), Base64Value(s[3]);
      if a.None? || b.None? then None
      else if |s| == 4 && s[2] == Pad && s[3] == Pad && b.value % 16 == 0 then
        Some([a.value * 4 + b.value / 16])
      else if |s| == 4 && c.Some? && s[3] == Pad && c.value % 4 == 0 then
        Some([a.value * 4 + b.value / 16, (b.value % 16) * 16 + c.value / 4])
      else if c.None? || d.None? then None
      else
        match Base64Decode(s[4..])
        case None => None
        case Some(rest) =>
          Some([a.value * 4 + b.value / 16, (b.value % 16) * 16 + c.value / 4, (c.value % 4) * 64 + d.value] + rest)
  }

  /** The bit arithmetic of one group: the four sextets give the three bytes back. */
  lemma Base64Group(b0: byte, b1: byte, b2: byte)
    ensures b0 == (b0 / 4) * 4 + ((b0 % 4) * 16 + b1 / 16) / 16
    ensures b1 == (((b0 % 4) * 16 + b1 / 16) % 16) * 16 + ((b1 % 16) * 4 + b2 / 64) / 4
    ensures b2 == (((b1 % 16) * 4 + b2 / 64) % 4) * 64 + b2 % 64
  {
  }

  /** Decoding a final group that encodes one byte. */
  lemma Base64DecodeOne(b0: byte)
    ensures Base64Decode([Base64Char(b0 / 4), Base64Char((b0 % 4) * 16), Pad, Pad]) == Some([b0])
  {
    Base64ValueOfChar(b0 / 4);
    Base64ValueOfChar((b0 % 4) * 16);
    Base64Group(b0, 0, 0);
  }

  /** Decoding a final group that encodes two bytes. */
  lemma Base64DecodeTwo(b0: byte, b1: byte)
    ensures Base64Decode([Base64Char(b0 / 4), Base64Char((b0 % 4) * 16 + b1 / 16), Base64Char((b1 % 16) * 4), Pad])
      == Some([b0, b1])
  {
    Base64ValueOfChar(b0 / 4);
    Base64ValueOfChar((b0 % 4) * 16 + b1 / 16);
    Base64ValueOfChar((b1 % 16) * 4);
    Base64Group(b0, b1, 0);
  }

  /** Decoding a full group in front of `rest`. */
  lemma Base64DecodeThree(b0: byte, b1: byte, b2: byte, rest: seq<byte>)
    ensures Base64Decode([Base64Char(b0 / 4), Base64Char((b0 % 4) * 16 + b1 / 16),
                          Base64Char((b1 % 16) * 4 + b2 / 64), Base64Char(b2 % 64)] + rest)
      == if Base64Decode(rest).Some? then Some([b0, b1, b2] + Base64Decode(rest).value) else None
  {
    var s := [Base64Char(b0 / 4), Base64Char((b0 % 4) * 16 + b1 / 16),
              Base64Char((b1 % 16) * 4 + b2 / 64), Base64Char(b2 % 64)] + rest;
    Base64ValueOfChar(b0 / 4);
    Base64ValueOfChar((b0 % 4) * 16 + b1 / 16);
    Base64ValueOfChar((b1 % 16) * 4 + b2 / 64);
    Base64ValueOfChar(b2 % 64);
    Base64Group(b0, b1, b2);
    assert s[4..] == rest;
  }

  /** Decoding undoes encoding. */
  lemma {:induction false} Base64RoundTrip(b: seq<byte>)
    ensures Base64Decode(Base64Encode(b)) == Some(b)
    decreases |b|
  {
    if |b| == 1 {
      Base64DecodeOne(b[0]);
      assert [b[0]] == b;
    } else if |b| == 2 {
      Base64DecodeTwo(b[0], b[1]);
      assert [b[0], b[1]] == b;
    } else if |b| >= 3 {
      Base64RoundTrip(b[3..]);
      Base64DecodeThree(b[0], b[1], b[2], Base64Encode(b[3..]));
      assert b == [b[0], b[1], b[2]] + b[3..];
    }
  }

  /** The bit arithmetic the other way: three bytes rebuilt from four sextets give the sextets back. */
  lemma Base64Ungroup(a: sextet, b: sextet, c: sextet, d: sextet)
    ensures var b0, b1, b2 := a * 4 + b / 16, (b % 16) * 16 + c / 4, (c % 4) * 64 + d;
      && 0 <= b0 < 256 && 0 <= b1 < 256 && 0 <= b2 < 256
      && b0 / 4 == a
      && (b0 % 4) * 16 + b1 / 16 == b
      && (b1 % 16) * 4 + b2 / 64 == c
      && b2 % 64 == d
      && (b % 16 == 0 ==> (b0 % 4) * 16 == b)
      && (c % 4 == 0 ==> (b1 % 16) * 4 == c)
  {
  }

  /** A final group that decodes to one byte is that byte's encoding. */
  lemma Base64CanonicalOne(a: sextet, b: sextet)
    requires b % 16 == 0
    ensures Base64Encode([a * 4 + b / 16]) == [Base64Char(a), Base64Char(b), Pad, Pad]
  {
    Base64Ungroup(a, b, 0, 0);
  }

  /** A final group that decodes to two bytes is their encoding. */
  lemma Base64CanonicalTwo(a: sextet, b: sextet, c: sextet)
    requires c % 4 == 0
    ensures Base64Encode([a * 4 + b / 16, (b % 16) * 16 + c / 4])
      == [Base64Char(a), Base64Char(b), Base64Char(c), Pad]
  {
    Base64Ungroup(a, b, c, 0);
  }

  /** A full group that decodes to three bytes, in front of the encoding of `rest`. */
  lemma Base64CanonicalThree(a: sextet, b: sextet, c: sextet, d: sextet, rest: seq<byte>)
    ensures var out := [a * 4 + b / 16, (b % 16) * 16 + c / 4, (c % 4) * 64 + d] + rest;
      && (forall k :: 0 <= k < |out| ==> 0 <= out[k] < 256)
      && Base64Encode(out) == [Base64Char(a), Base64Char(b), Base64Char(c), Base64Char(d)] + Base64Encode(rest)
  {
    Base64Ungroup(a, b, c, d);
    var out: seq<byte> := [a * 4 + b / 16, (b % 16) * 16 + c / 4, (c % 4) * 64 + d] + rest;
    assert out[3..] == rest;
  }

  /** A decodable string is the encoding of what it decodes to: the encoding is canonical. */
  lemma {:induction false} Base64Canonical(s: seq<byte>)
    requires Base64Decode(s).Some?
    ensures Base64Encode(Base64Decode(s).value) == s
    decreases |s|
  {
    if |s| == 4 && s[2] == Pad && s[3] == Pad {
      Base64CanonicalPadPad(s);
    } else if |s| == 4 && s[3] == Pad {
      Base64CanonicalPad(s);
    } else if |s| > 0 {
      Base64Canonical(s[4..]);
      Base64CanonicalFull(s);
    }
  }

  /** A final group with two `=` that decodes is the encoding of its one byte. */
  lemma Base64CanonicalPadPad(s: seq<byte>)
    requires Base64Decode(s).Some? && |s| == 4 && s[2] == Pad && s[3] == Pad
    ensures Base64Encode(Base64Decode(s).value) == s
  {
    var a: int, b: int := Base64Value(s[0]).value, Base64Value(s[1]).value;
    assert Base64Decode(s) == Some([a * 4 + b / 16]);
    Base64CanonicalOne(a, b);
    assert s == [Base64Char(a), Base64Char(b), Pad, Pad];
  }

  /** A final group with one `=` that decodes is the encoding of its two bytes. */
  lemma Base64CanonicalPad(s: seq<byte>)
    requires Base64Decode(s).Some? && |s| == 4 && s[2] != Pad && s[3] == Pad
    ensures Base64Encode(Base64Decode(s).value) == s
  {
    var a: int, b: int, c: int := Base64Value(s[0]).value, Base64Value(s[1]).value, Base64Value(s[2]).value;
    assert Base64Decode(s) == Some([a * 4 + b / 16, (b % 16) * 16 + c / 4]);
    Base64CanonicalTwo(a, b, c);
    assert s == [Base64Char(a), Base64Char(b), Base64Char(c), Pad];
  }

  /** Decoding a string that starts with a full group. */
  lemma Base64DecodeFull(s: seq<byte>)
    requires |s| >= 4 && s[3] != Pad
    requires Base64Value(s[0]).Some? && Base64Value(s[1]).Some?
    requires Base64Value(s[2]).Some? && Base64Value(s[3]).Some?
    requires Base64Decode(s[4..]).Some?
    ensures Base64Decode(s).Some?
    ensures var a, b, c, d := Base64Value(s[0]).value, Base64Value(s[1]).value, Base64Value(s[2]).value, Base64Value(s[3]).value;
      Base64Decode(s).value == [a * 4 + b / 16, (b % 16) * 16 + c / 4, (c % 4) * 64 + d] + Base64Decode(s[4..]).value
  {
  }

  /** A full group in front of a canonical rest gives a canonical string. */
  lemma Base64CanonicalFull(s: seq<byte>)
    requires |s| >= 4 && s[3] != Pad
    requires Base64Value(s[0]).Some? && Base64Value(s[1]).Some?
    requires Base64Value(s[2]).Some? && Base64Value(s[3]).Some?
    requires Base64Decode(s[4..]).Some? && Base64Encode(Base64Decode(s[4..]).value) == s[4..]
    ensures Base64Decode(s).Some?
    ensures Base64Encode(Base64Decode(s).value) == s
  {
    var a: int, b: int, c: int, d: int := Base64Value(s[0]).value, Base64Value(s[1]).value, Base64Value(s[2]).value, Base64Value(s[3]).value;
    Base64DecodeFull(s);
    var rest := Base64Decode(s[4..]).value;
    var out := Base64Decode(s).value;
    Base64CanonicalThree(a, b, c, d, rest);
    assert out == [a * 4 + b / 16, (b % 16) * 16 + c / 4, (c % 4) * 64 + d] + rest;
    assert [Base64Char(a), Base64Char(b), Base64Char(c), Base64Char(d)] == s[..4];
    assert s == s[..4] + s[4..];
  }

  /** Hence the encoding is the only string that decodes to `b`. */
  lemma Base64EncodingUnique(s: seq<byte>, b: seq<byte>)
    requires Base64Decode(s) == Some(b)
    ensures s == Base64Encode(b)
  {
    Base64Canonical(s);
  }

  // ---------------------------------------------------------------------
  // Base16, lower case
  // ---------------------------------------------------------------------

  const HexDigits: string := "0123456789abcdef"

  /** The value of a lower-case hex digit. */
  function HexValue(c: char): (r: Option<int>)
    ensures r.Some? ==> 0 <= r.value < 16 && HexDigits[r.value] == c
  {
    if '0' <= c <= '9' then Some(c as int - '0' as int)
    else if 'a' <= c <= 'f' then Some(c as int - 'a' as int + 10)
    else None
  }

  lemma HexValueOfDigit(v: int)
    requires 0 <= v < 16
    ensures HexValue(HexDigits[v]) == Some(v)
  {
  }

  /** Two lower-case digits per byte, high nibble first. */
  function HexEncode(src: seq<byte>): (s: string)
    ensures |s| == 2 * |src|
    ensures forall i :: 0 <= i < |s| ==> s[i] in HexDigits
  {
    if src == [] then ""
    else [HexDigits[src[0] / 16], HexDigits[src[0] % 16]] + HexEncode(src[1..])
  }

  /** Decodes lower-case hex; `None` on an odd length or a character outside `0-9a-f`. */
  function HexDecode(s: string): Option<seq<byte>>
    decreases |s|
  {
    if |s| == 0 then Some([])
    else if |s| == 1 then None
    else
      var hi, lo := HexValue(s[0]), HexValue(s[1]);
      if hi.None? || lo.None? then None
      else
        match HexDecode(s[2..])
        case None => None
        case Some(rest) => Some([hi.value * 16 + lo.value] + rest)
  }

  /** Decoding one encoded byte in front of `rest`. */
  lemma HexDecodeByte(x: byte, rest: string)
    ensures HexDecode([HexDigits[x / 16], HexDigits[x % 16]] + rest) ==
      if HexDecode(rest).Some? then Some([x] + HexDecode(rest).value) else None
  {
    var s := [HexDigits[x / 16], HexDigits[x % 16]] + rest;
    HexValueOfDigit(x / 16);
    HexValueOfDigit(x % 16);
    assert s[2..] == rest;
  }

  /** Decoding undoes encoding. */
  lemma {:induction false} HexRoundTrip(src: seq<byte>)
    ensures HexDecode(HexEncode(src)) == Some(src)
  {
    if src != [] {
      HexRoundTrip(src[1..]);
      HexDecodeByte(src[0], HexEncode(src[1..]));
      assert src == [src[0]] + src[1..];
    }
  }
}
