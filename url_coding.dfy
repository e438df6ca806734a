/** Percent-encoding as the application uses it: `encodeURIComponent` in template
    strings, the application/x-www-form-urlencoded serializer and parser behind
    `URLSearchParams` (section 5 of the WHATWG URL Standard), and `decodeURIComponent`.
    Characters travel as their UTF-8 bytes (RFC 3629). */
module UrlCoding {
  import opened Common

  type byte = x: int | 0 <= x < 256

  // ---------------------------------------------------------------------------
  // UTF-8

  predicate IsContinuation(b: byte) {
    0x80 <= b < 0xC0
  }

  /** The UTF-8 encoding of one Unicode scalar value. */
  function Utf8(c: char): (r: seq<byte>)
    ensures 1 <= |r| <= 4
    ensures c as int < 0x80 ==> r == [c as int]
    ensures c as int >= 0x80 ==> r[0] >= 0xC0 && forall k :: 1 <= k < |r| ==> IsContinuation(r[k])
  {
    var v := c as int;
    if v < 0x80 then [v]
    else if v < 0x800 then [0xC0 + v / 64, 0x80 + v % 64]
    else if v < 0x10000 then [0xE0 + v / 4096, 0x80 + v / 64 % 64, 0x80 + v % 64]
    else [0xF0 + v / 262144, 0x80 + v / 4096 % 64, 0x80 + v / 64 % 64, 0x80 + v % 64]
  }

  function Utf8String(s: string): seq<byte> {
    if s == [] then [] else Utf8(s[0]) + Utf8String(s[1..])
  }

  /** Decodes the one well-formed UTF-8 sequence at the start of `b`, giving the
      character and the number of bytes it takes; `None` when `b` does not start with
      one (a stray continuation byte, a truncated or overlong sequence, a surrogate). */
  function DecodeOne(b: seq<byte>): (r: Option<(char, nat)>)
    requires |b| > 0
    ensures r.Some? ==> 1 <= r.value.1 <= |b|
  {
    var b0: int := b[0];
    if b0 < 0x80 then Some((b0 as char, 1))
    else if 0xC2 <= b0 < 0xE0 && |b| >= 2 && IsContinuation(b[1]) then
      Some((((b0 - 0xC0) * 64 + (b[1] as int - 0x80)) as char, 2))
    else if 0xE0 <= b0 < 0xF0 && |b| >= 3 && IsContinuation(b[1]) && IsContinuation(b[2]) then
      var v := (b0 - 0xE0) * 4096 + (b[1] as int - 0x80) * 64 + (b[2] as int - 0x80);
      if 0x800 <= v && (v < 0xD800 || 0xE000 <= v) then Some((v as char, 3)) else None
    else if 0xF0 <= b0 < 0xF5 && |b| >= 4
      && IsContinuation(b[1]) && IsContinuation(b[2]) && IsContinuation(b[3]) then
      var v := (b0 - 0xF0) * 262144 + (b[1] as int - 0x80) * 4096 + (b[2] as int - 0x80) * 64
        + (b[3] as int - 0x80);
      if 0x10000 <= v <= 0x10FFFF then Some((v as char, 4)) else None
    else None
  }

  /** The text of a UTF-8 decode, and whether the bytes were well-formed. */
  datatype Decoded = Decoded(text: string, valid: bool)

  /** UTF-8 decode: an ill-formed byte becomes U+FFFD and marks the result invalid. */
  function DecodeUtf8(b: seq<byte>): Decoded
    decreases |b|
  {
    if b == [] then Decoded([], true)
    else match DecodeOne(b)
      case Some((c, n)) =>
        var rest := DecodeUtf8(b[n..]);
        Decoded([c] + rest.text, rest.valid)
      case None =>
        var rest := DecodeUtf8(b[1..]);
        Decoded(['\U{FFFD}'] + rest.text, false)
  }

  lemma DecodeOneUtf8(c: char, rest: seq<byte>)
    ensures DecodeOne(Utf8(c) + rest) == Some((c, |Utf8(c)|))
  {
    var v := c as int;
    if v < 0x80 {
    } else if v < 0x800 {
      DecodeTwo(c, rest);
    } else if v < 0x10000 {
      DecodeThree(c, rest);
    } else {
      DecodeFour(c, rest);
    }
  }

  lemma DecodeTwo(c: char, rest: seq<byte>)
    requires 0x80 <= c as int < 0x800
    ensures DecodeOne(Utf8(c) + rest) == Some((c, 2))
  {
    var v := c as int;
    var b: seq<int> := Utf8(c) + rest;
    assert b[0] == 0xC0 + v / 64 && b[1] == 0x80 + v % 64;
    assert (b[0] - 0xC0) * 64 + (b[1] - 0x80) == v / 64 * 64 + v % 64 == v;
  }

  lemma DecodeThree(c: char, rest: seq<byte>)
    requires 0x800 <= c as int < 0x10000
    ensures DecodeOne(Utf8(c) + rest) == Some((c, 3))
  {
    var v := c as int;
    var b: seq<int> := Utf8(c) + rest;
    assert b[0] == 0xE0 + v / 4096 && b[1] == 0x80 + v / 64 % 64 && b[2] == 0x80 + v % 64;
    ThreeDigits(v);
  }

  lemma ThreeDigits(v: int)
    requires 0 <= v < 0x10000
    ensures v / 4096 * 4096 + v / 64 % 64 * 64 + v % 64 == v
  {
    assert v / 4096 * 64 + v / 64 % 64 == v / 64;
  }

  lemma DecodeFour(c: char, rest: seq<byte>)
    requires 0x10000 <= c as int
    ensures DecodeOne(Utf8(c) + rest) == Some((c, 4))
  {
    var v := c as int;
    var b: seq<int> := Utf8(c) + rest;
    assert b[0] == 0xF0 + v / 262144 && b[1] == 0x80 + v / 4096 % 64;
    assert b[2] == 0x80 + v / 64 % 64 && b[3] == 0x80 + v % 64;
    FourDigits(v);
  }

  lemma FourDigits(v: int)
    requires 0 <= v < 0x110000
    ensures v / 262144 * 262144 + v / 4096 % 64 * 4096 + v / 64 % 64 * 64 + v % 64 == v
  {
    assert v / 262144 * 64 + v / 4096 % 64 == v / 4096;
    assert v / 4096 * 64 + v / 64 % 64 == v / 64;
  }

  /** Decoding the UTF-8 encoding of a string gives the string back, well-formed. */
  lemma {:induction false} DecodeUtf8String(s: string)
    ensures DecodeUtf8(Utf8String(s)) == Decoded(s, true)
  {
    if s != [] {
      DecodeOneUtf8(s[0], Utf8String(s[1..]));
      var b := Utf8String(s);
      assert b[|Utf8(s[0])|..] == Utf8String(s[1..]);
      DecodeUtf8String(s[1..]);
      assert [s[0]] + s[1..] == s;
    }
  }

  // ---------------------------------------------------------------------------
  // Hexadecimal

  /** An upper-case hexadecimal digit, as both encoders write them. */
  function HexDigit(d: nat): char
    requires d < 16
  {
    if d < 10 then (d + '0' as int) as char else (d - 10 + 'A' as int) as char
  }

  /** The value of a hexadecimal digit of either case. */
  function HexValue(c: char): (r: Option<nat>)
    ensures r.Some? ==> r.value < 16
  {
    if '0' <= c <= '9' then Some(c as int - '0' as int)
    else if 'A' <= c <= 'F' then Some(c as int - 'A' as int + 10)
    else if 'a' <= c <= 'f' then Some(c as int - 'a' as int + 10)
    else None
  }

  lemma HexValueDigit(d: nat)
    requires d < 16
    ensures HexValue(HexDigit(d)) == Some(d)
  {
  }

  /** `%XY` for each byte. */
  function PercentBytes(bs: seq<byte>): string {
    if bs == [] then "" else ['%', HexDigit(bs[0] / 16), HexDigit(bs[0] % 16)] + PercentBytes(bs[1..])
  }

  // ---------------------------------------------------------------------------
  // Encoders

  /** `encodeURIComponent` or the form serializer. */
  datatype Scheme = Component | Form

  predicate IsAlnum(c: char) {
    ('a' <= c <= 'z') || ('A' <= c <= 'Z') || ('0' <= c <= '9')
  }

  /** The characters a scheme writes as themselves: for `encodeURIComponent` the URI
      unreserved marks of ECMAScript, for the form serializer `*-._`. */
  predicate Keeps(scheme: Scheme, c: char) {
    IsAlnum(c) ||
    match scheme
    case Component => c in "-_.!~*'()"
    case Form => c in "*-._"
  }

  function EncodeChar(scheme: Scheme, c: char): string {
    if Keeps(scheme, c) then [c]
    else if scheme == Form && c == ' ' then "+"
    else PercentBytes(Utf8(c))
  }

  /** `encodeURIComponent(s)` (Component) or the form serialization of `s` (Form). */
  function Encode(scheme: Scheme, s: string): (r: string)
    ensures |r| >= |s|
  {
    if s == [] then "" else EncodeChar(scheme, s[0]) + Encode(scheme, s[1..])
  }

  /** The characters either encoder may produce besides `+`. */
  predicate UrlSafe(c: char) {
    IsAlnum(c) || c in "-_.!~*'()%"
  }

  lemma PercentBytesSafe(bs: seq<byte>)
    ensures forall i :: 0 <= i < |PercentBytes(bs)| ==> UrlSafe(PercentBytes(bs)[i])
  {
    if bs != [] {
      PercentBytesSafe(bs[1..]);
      var head := ['%', HexDigit(bs[0] / 16), HexDigit(bs[0] % 16)];
      assert PercentBytes(bs) == head + PercentBytes(bs[1..]);
    }
  }

  /** Encoded text never holds the delimiters `& = # ? /` or a space, so it can be
      placed in a query or a path without changing its structure; `encodeURIComponent`
      does not produce `+` either. */
  lemma {:induction false} EncodeSafe(scheme: Scheme, s: string)
    ensures forall i :: 0 <= i < |Encode(scheme, s)| ==>
      UrlSafe(Encode(scheme, s)[i]) || (scheme == Form && Encode(scheme, s)[i] == '+')
  {
    if s != [] {
      EncodeSafe(scheme, s[1..]);
      PercentBytesSafe(Utf8(s[0]));
      var e := Encode(scheme, s);
      assert e == EncodeChar(scheme, s[0]) + Encode(scheme, s[1..]);
    }
  }

  lemma EncodeAppend(scheme: Scheme, a: string, b: string)
    ensures Encode(scheme, a + b) == Encode(scheme, a) + Encode(scheme, b)
  {
    if a != [] {
      assert (a + b)[0] == a[0] && (a + b)[1..] == a[1..] + b;
      EncodeAppend(scheme, a[1..], b);
      assert Encode(scheme, a + b) == EncodeChar(scheme, a[0]) + Encode(scheme, a[1..] + b);
    } else {
      assert a + b == b;
    }
  }

  lemma EncodeEmpty(scheme: Scheme, s: string)
    ensures Encode(scheme, s) == "" <==> s == ""
  {
    if s != [] {
      assert |EncodeChar(scheme, s[0])| > 0;
    }
  }

  /** Text made only of characters a scheme keeps is written unchanged. */
  lemma {:induction false} EncodeKept(scheme: Scheme, s: string)
    requires forall i :: 0 <= i < |s| ==> Keeps(scheme, s[i])
    ensures Encode(scheme, s) == s
  {
    if s != [] {
      EncodeKept(scheme, s[1..]);
      assert [s[0]] + s[1..] == s;
    }
  }

  // ---------------------------------------------------------------------------
  // Decoders

  /** The percent-decoding of the UTF-8 encoding of `s` (section 1.3 of the WHATWG URL
      Standard): `%` with two hexadecimal digits is one byte, any other character its
      UTF-8 bytes, and with `plusIsSpace` a `+` is the byte of a space, as the form
      parser replaces it before decoding. */
  function PercentDecode(s: string, plusIsSpace: bool): seq<byte>
    decreases |s|
  {
    if s == [] then []
    else if s[0] == '%' && |s| >= 3 && HexValue(s[1]).Some? && HexValue(s[2]).Some? then
      [HexValue(s[1]).value * 16 + HexValue(s[2]).value] + PercentDecode(s[3..], plusIsSpace)
    else if plusIsSpace && s[0] == '+' then [0x20] + PercentDecode(s[1..], plusIsSpace)
    else Utf8(s[0]) + PercentDecode(s[1..], plusIsSpace)
  }

  /** How the form parser reads a name or a value. */
  function FormDecode(s: string): string {
    DecodeUtf8(PercentDecode(s, true)).text
  }

  /** The percent-decoding `decodeURIComponent` performs: `None` (a `URIError`) when a
      `%` is not followed by two hexadecimal digits. */
  function StrictPercentDecode(s: string): Option<seq<byte>>
    decreases |s|
  {
    if s == [] then Some([])
    else if s[0] == '%' then
      if |s| >= 3 && HexValue(s[1]).Some? && HexValue(s[2]).Some? then
        match StrictPercentDecode(s[3..])
        case None => None
        case Some(rest) => Some([HexValue(s[1]).value * 16 + HexValue(s[2]).value] + rest)
      else None
    else
      match StrictPercentDecode(s[1..])
      case None => None
      case Some(rest) => Some(Utf8(s[0]) + rest)
  }

  /** `decodeURIComponent(s)`: `None` where it throws, on a malformed escape or on
      escaped bytes that are not well-formed UTF-8. */
  function UriDecode(s: string): Option<string> {
    match StrictPercentDecode(s)
    case None => None
    case Some(bs) => if DecodeUtf8(bs).valid then Some(DecodeUtf8(bs).text) else None
  }

  /** The escape of one byte, followed by `t`: a `%`, two hexadecimal digits whose value
      is the byte, then `t`. */
  lemma PercentTriple(b: byte, t: string)
    ensures var s := ['%', HexDigit(b / 16), HexDigit(b % 16)] + t;
      |s| >= 3 && s[0] == '%' && HexValue(s[1]).Some? && HexValue(s[2]).Some? &&
      HexValue(s[1]).value * 16 + HexValue(s[2]).value == b && s[3..] == t
  {
    var s := ['%', HexDigit(b / 16), HexDigit(b % 16)] + t;
    HexValueDigit(b / 16);
    HexValueDigit(b % 16);
    assert s[1] == HexDigit(b / 16) && s[2] == HexDigit(b % 16);
  }

  lemma PercentBytesCons(bs: seq<byte>, rest: string)
    requires bs != []
    ensures PercentBytes(bs) + rest == ['%', HexDigit(bs[0] / 16), HexDigit(bs[0] % 16)] + (PercentBytes(bs[1..]) + rest)
  {
  }

  lemma PercentDecodeTriple(b: byte, t: string, plusIsSpace: bool)
    ensures PercentDecode(['%', HexDigit(b / 16), HexDigit(b % 16)] + t, plusIsSpace) == [b] + PercentDecode(t, plusIsSpace)
  {
    PercentTriple(b, t);
  }

  lemma {:induction false} PercentDecodeBytes(bs: seq<byte>, rest: string, plusIsSpace: bool)
    ensures PercentDecode(PercentBytes(bs) + rest, plusIsSpace) == bs + PercentDecode(rest, plusIsSpace)
  {
    if bs != [] {
      PercentDecodeBytes(bs[1..], rest, plusIsSpace);
      PercentDecodeStep(bs, rest, plusIsSpace);
    } else {
      assert PercentBytes(bs) + rest == rest;
      assert bs + PercentDecode(rest, plusIsSpace) == PercentDecode(rest, plusIsSpace);
    }
  }

  /** One byte more in front of an escaped tail. */
  lemma PercentDecodeStep(bs: seq<byte>, rest: string, plusIsSpace: bool)
    requires bs != []
    requires PercentDecode(PercentBytes(bs[1..]) + rest, plusIsSpace) == bs[1..] + PercentDecode(rest, plusIsSpace)
    ensures PercentDecode(PercentBytes(bs) + rest, plusIsSpace) == bs + PercentDecode(rest, plusIsSpace)
  {
    var t := PercentBytes(bs[1..]) + rest;
    var x := PercentDecode(rest, plusIsSpace);
    PercentBytesCons(bs, rest);
    PercentDecodeTriple(bs[0], t, plusIsSpace);
    calc {
      PercentDecode(PercentBytes(bs) + rest, plusIsSpace);
      [bs[0]] + PercentDecode(t, plusIsSpace);
      [bs[0]] + (bs[1..] + x);
      ([bs[0]] + bs[1..]) + x;
      { assert [bs[0]] + bs[1..] == bs; }
      bs + x;
    }
  }

  lemma {:induction false} StrictPercentDecodeBytes(bs: seq<byte>, rest: string)
    requires StrictPercentDecode(rest).Some?
    ensures StrictPercentDecode(PercentBytes(bs) + rest) == Some(bs + StrictPercentDecode(rest).value)
  {
    if bs != [] {
      var t := PercentBytes(bs[1..]) + rest;
      PercentBytesCons(bs, rest);
      PercentTriple(bs[0], t);
      StrictPercentDecodeBytes(bs[1..], rest);
      var v := StrictPercentDecode(rest).value;
      assert StrictPercentDecode(PercentBytes(bs) + rest) == Some([bs[0]] + (bs[1..] + v));
      assert [bs[0]] + (bs[1..] + v) == bs + v;
    } else {
      assert PercentBytes(bs) + rest == rest;
      assert bs + StrictPercentDecode(rest).value == StrictPercentDecode(rest).value;
    }
  }

  /** Each encoded character decodes, under the form parser, to its own UTF-8 bytes. */
  lemma PercentDecodeEncodeChar(scheme: Scheme, c: char, rest: string)
    ensures PercentDecode(EncodeChar(scheme, c) + rest, true) == Utf8(c) + PercentDecode(rest, true)
  {
    if Keeps(scheme, c) || (scheme == Form && c == ' ') {
      assert (EncodeChar(scheme, c) + rest)[1..] == rest;
    } else {
      PercentDecodeBytes(Utf8(c), rest, true);
    }
  }

  lemma {:induction false} PercentDecodeEncode(scheme: Scheme, s: string)
    ensures PercentDecode(Encode(scheme, s), true) == Utf8String(s)
  {
    if s != [] {
      PercentDecodeEncode(scheme, s[1..]);
      PercentDecodeEncodeChar(scheme, s[0], Encode(scheme, s[1..]));
    }
  }

  /** The form parser gives back what either encoder wrote. */
  lemma FormDecodeEncode(scheme: Scheme, s: string)
    ensures FormDecode(Encode(scheme, s)) == s
  {
    PercentDecodeEncode(scheme, s);
    DecodeUtf8String(s);
  }

  lemma {:induction false} StrictDecodeEncode(s: string)
    ensures StrictPercentDecode(Encode(Component, s)) == Some(Utf8String(s))
  {
    if s != [] {
      StrictDecodeEncode(s[1..]);
      var c := s[0];
      var rest := Encode(Component, s[1..]);
      if Keeps(Component, c) {
        assert (EncodeChar(Component, c) + rest)[1..] == rest;
      } else {
        StrictPercentDecodeBytes(Utf8(c), rest);
      }
    }
  }

  /** `decodeURIComponent(encodeURIComponent(s)) === s`. */
  lemma UriDecodeEncode(s: string)
    ensures UriDecode(Encode(Component, s)) == Some(s)
  {
    StrictDecodeEncode(s);
    DecodeUtf8String(s);
  }

  lemma {:induction false} StrictDecodePlain(s: string)
    requires '%' !in s
    ensures StrictPercentDecode(s) == Some(Utf8String(s))
  {
    if s != [] {
      StrictDecodePlain(s[1..]);
    }
  }

  /** Text without `%` passes `decodeURIComponent` unchanged. */
  lemma UriDecodePlain(s: string)
    requires '%' !in s
    ensures UriDecode(s) == Some(s)
  {
    StrictDecodePlain(s);
    DecodeUtf8String(s);
  }

  /** A lone `%` makes `decodeURIComponent` throw. */
  lemma UriDecodeMalformed(s: string)
    ensures UriDecode(s + "%") == None
  {
    StrictPercentTail(s);
  }

  lemma {:induction false} StrictPercentTail(s: string)
    ensures StrictPercentDecode(s + "%") == None
    decreases |s|
  {
    if s != [] {
      var t := s + "%";
      if s[0] == '%' && |t| >= 3 && HexValue(t[1]).Some? && HexValue(t[2]).Some? {
        assert t[3..] == s[3..] + "%";
        StrictPercentTail(s[3..]);
      } else if s[0] != '%' {
        assert t[1..] == s[1..] + "%";
        StrictPercentTail(s[1..]);
      }
    }
  }
}
