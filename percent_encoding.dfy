/**
 * Percent-encoding of URI components (section 2.1 of RFC 3986) as
 * ECMAScript's `encodeURIComponent` writes it (ECMA-262, section 19.2.6):
 * the unreserved marks stay, every other character becomes the `%XX`
 * escapes of its UTF-8 bytes (RFC 3629) in upper-case hexadecimal; and the
 * decoding a query-item reader applies: escapes in either case give bytes,
 * other characters give their own UTF-8 bytes, and the bytes must form valid
 * UTF-8.
 */
module PercentEncoding {
  import opened Wrappers

  type byte = b: int | 0 <= b < 256

  /** Characters `encodeURIComponent` leaves as they are: letters, digits and `-_.!~*'()`. */
  predicate Unreserved(c: char) {
    || 'A' <= c <= 'Z' || 'a' <= c <= 'z' || '0' <= c <= '9'
    || c == '-' || c == '_' || c == '.' || c == '!' || c == '~'
    || c == '*' || c == '\'' || c == '(' || c == ')'
  }

  // ---------------------------------------------------------------------------
  // UTF-8
  // ---------------------------------------------------------------------------

  predicate Continuation(b: byte) {
    0x80 <= b < 0xC0
  }

  /** The UTF-8 bytes of one Unicode scalar value. */
  function Utf8(c: char): (bs: seq<byte>)
    ensures 1 <= |bs| <= 4
    ensures (c as int < 0x80) == (|bs| == 1)
  {
    var cp := c as int;
    if cp < 0x80 then [cp]
    else if cp < 0x800 then [0xC0 + cp / 64, 0x80 + cp % 64]
    else if cp < 0x10000 then [0xE0 + cp / 4096, 0x80 + (cp / 64) % 64, 0x80 + cp % 64]
    else [0xF0 + cp / 0x40000, 0x80 + (cp / 4096) % 64, 0x80 + (cp / 64) % 64, 0x80 + cp % 64]
  }

  /** The UTF-8 bytes of a whole text. */
  function Utf8Text(s: string): seq<byte> {
    if s == [] then [] else Utf8(s[0]) + Utf8Text(s[1..])
  }

  /**
   * The character a UTF-8 byte sequence starts with and the number of bytes
   * it takes; None for a malformed, overlong, surrogate or out-of-range
   * sequence.
   */
  function Utf8DecodeOne(bs: seq<byte>): (r: Option<(char, nat)>)
    requires |bs| >= 1
    ensures r.Some? ==> 1 <= r.value.1 <= |bs|
  {
    var b0, b1, b2, b3: int := bs[0], if |bs| > 1 then bs[1] else 0, if |bs| > 2 then bs[2] else 0, if |bs| > 3 then bs[3] else 0;
    if b0 < 0x80 then Some((b0 as char, 1))
    else if 0xC2 <= b0 < 0xE0 && |bs| >= 2 && Continuation(bs[1]) then
      var cp := (b0 - 0xC0) * 64 + (b1 - 0x80);
      Some((cp as char, 2))
    else if 0xE0 <= b0 < 0xF0 && |bs| >= 3 && Continuation(bs[1]) && Continuation(bs[2]) then
      var cp := (b0 - 0xE0) * 4096 + (b1 - 0x80) * 64 + (b2 - 0x80);
      if cp < 0x800 || 0xD800 <= cp < 0xE000 then None else Some((cp as char, 3))
    else if 0xF0 <= b0 < 0xF5 && |bs| >= 4 && Continuation(bs[1]) && Continuation(bs[2]) && Continuation(bs[3]) then
      var cp := (b0 - 0xF0) * 0x40000 + (b1 - 0x80) * 4096 + (b2 - 0x80) * 64 + (b3 - 0x80);
      if cp < 0x10000 || cp >= 0x110000 then None else Some((cp as char, 4))
    else None
  }

  /** The text a UTF-8 byte sequence denotes, or None if it is not valid UTF-8. */
  function Utf8Decode(bs: seq<byte>): Option<string>
    decreases |bs|
  {
    if bs == [] then Some("")
    else
      match Utf8DecodeOne(bs)
      case None => None
      case Some((c, n)) =>
        match Utf8Decode(bs[n..])
        case None => None
        case Some(rest) => Some([c] + rest)
  }

  /** Decoding the UTF-8 bytes of one character gives that character back, whatever follows. */
  lemma Utf8DecodeOneOf(c: char, rest: seq<byte>)
    ensures Utf8DecodeOne(Utf8(c) + rest) == Some((c, |Utf8(c)|))
  {
    var cp := c as int;
    var bs := Utf8(c) + rest;
    if cp < 0x80 {
    } else if cp < 0x800 {
      assert bs[0] == 0xC0 + cp / 64 && bs[1] == 0x80 + cp % 64;
    } else if cp < 0x10000 {
      DecodeThreeBytes(c, rest);
    } else {
      DecodeFourBytes(c, rest);
    }
  }

  /** A character of three UTF-8 bytes decodes back from them. */
  lemma DecodeThreeBytes(c: char, rest: seq<byte>)
    requires 0x800 <= c as int < 0x10000
    ensures Utf8DecodeOne(Utf8(c) + rest) == Some((c, 3))
  {
    var cp := c as int;
    var bs := Utf8(c) + rest;
    var q := cp / 64;
    assert cp / 4096 == q / 64;
    assert bs[0] == 0xE0 + q / 64 && bs[1] == 0x80 + q % 64 && bs[2] == 0x80 + cp % 64;
    assert (q / 64) * 4096 + (q % 64) * 64 + cp % 64 == cp;
  }

  /** A character of four UTF-8 bytes decodes back from them. */
  lemma DecodeFourBytes(c: char, rest: seq<byte>)
    requires 0x10000 <= c as int
    ensures Utf8DecodeOne(Utf8(c) + rest) == Some((c, 4))
  {
    var cp := c as int;
    var bs := Utf8(c) + rest;
    var q := cp / 64;
    var p := q / 64;
    assert cp / 4096 == p;
    assert cp / 0x40000 == p / 64;
    assert bs[0] == 0xF0 + p / 64 && bs[1] == 0x80 + p % 64;
    assert bs[2] == 0x80 + q % 64 && bs[3] == 0x80 + cp % 64;
    assert (p / 64) * 0x40000 + (p % 64) * 4096 + (q % 64) * 64 + cp % 64 == cp;
  }

  /** UTF-8 decoding undoes UTF-8 encoding. */
  lemma {:induction false} Utf8RoundTrip(s: string)
    ensures Utf8Decode(Utf8Text(s)) == Some(s)
  {
    if s != [] {
      var bs := Utf8Text(s);
      Utf8DecodeOneOf(s[0], Utf8Text(s[1..]));
      assert bs[|Utf8(s[0])|..] == Utf8Text(s[1..]);
      Utf8RoundTrip(s[1..]);
      assert s == [s[0]] + s[1..];
    }
  }

  // ---------------------------------------------------------------------------
  // Percent escapes
  // ---------------------------------------------------------------------------

  /** The upper-case hexadecimal digit for `n`. */
  function HexDigit(n: nat): (c: char)
    requires n < 16
    ensures Unreserved(c)
  {
    if n < 10 then (n + '0' as int) as char else (n - 10 + 'A' as int) as char
  }

  /** The value of a hexadecimal digit in either case. */
  function HexValue(c: char): (r: Option<nat>)
    ensures r.Some? ==> r.value < 16
  {
    if '0' <= c <= '9' then Some(c as int - '0' as int)
    else if 'A' <= c <= 'F' then Some(c as int - 'A' as int + 10)
    else if 'a' <= c <= 'f' then Some(c as int - 'a' as int + 10)
    else None
  }

  lemma HexValueOfDigit(n: nat)
    requires n < 16
    ensures HexValue(HexDigit(n)) == Some(n)
  {
  }

  /** `%XX` escapes for each byte. */
  function Escapes(bs: seq<byte>): (r: string)
    ensures forall i :: 0 <= i < |r| ==> Unreserved(r[i]) || r[i] == '%'
  {
    if bs == [] then ""
    else ['%', HexDigit(bs[0] / 16), HexDigit(bs[0] % 16)] + Escapes(bs[1..])
  }

  /** `encodeURIComponent` applied to one character. */
  function EncodeChar(c: char): (r: string)
    ensures forall i :: 0 <= i < |r| ==> Unreserved(r[i]) || r[i] == '%'
  {
    if Unreserved(c) then [c] else Escapes(Utf8(c))
  }

  /**
   * `encodeURIComponent`. Its output holds only unreserved characters and
   * `%`, so in particular no `&`, `=`, `?`, `#` or `/`.
   */
  function EncodeURIComponent(s: string): (r: string)
    ensures forall i :: 0 <= i < |r| ==> Unreserved(r[i]) || r[i] == '%'
  {
    if s == [] then "" else EncodeChar(s[0]) + EncodeURIComponent(s[1..])
  }

  /** The bytes a percent-encoded text denotes, or None if an escape is malformed. */
  function PercentBytes(s: string): Option<seq<byte>> {
    if s == [] then Some([])
    else if s[0] == '%' then
      if |s| >= 3 && HexValue(s[1]).Some? && HexValue(s[2]).Some? then
        match PercentBytes(s[3..])
        case None => None
        case Some(rest) => Some([HexValue(s[1]).value * 16 + HexValue(s[2]).value] + rest)
      else None
    else
      match PercentBytes(s[1..])
      case None => None
      case Some(rest) => Some(Utf8(s[0]) + rest)
  }

  /** Percent-decoding: the escapes' bytes read as UTF-8; None when an escape or the UTF-8 is malformed. */
  function PercentDecode(s: string): Option<string> {
    match PercentBytes(s)
    case None => None
    case Some(bs) => Utf8Decode(bs)
  }

  /** The bytes of one escape followed by more text are the escaped byte followed by the bytes of the rest. */
  lemma EscapeBytes(b: byte, rest: string)
    ensures PercentBytes(['%', HexDigit(b / 16), HexDigit(b % 16)] + rest) ==
      (match PercentBytes(rest) case None => None case Some(r) => Some([b] + r))
  {
    var s := ['%', HexDigit(b / 16), HexDigit(b % 16)] + rest;
    HexValueOfDigit(b / 16);
    HexValueOfDigit(b % 16);
    assert s[3..] == rest;
    assert (b / 16) * 16 + b % 16 == b;
  }

  /** The bytes of escapes followed by more text are the escaped bytes followed by the bytes of the rest. */
  lemma {:induction false} EscapesBytes(bs: seq<byte>, rest: string)
    ensures PercentBytes(Escapes(bs) + rest) ==
      (match PercentBytes(rest) case None => None case Some(r) => Some(bs + r))
  {
    if bs != [] {
      var b := bs[0];
      var tail := Escapes(bs[1..]) + rest;
      assert Escapes(bs) + rest == ['%', HexDigit(b / 16), HexDigit(b % 16)] + tail;
      EscapeBytes(b, tail);
      EscapesBytes(bs[1..], rest);
      match PercentBytes(rest) {
        case None =>
        case Some(r) => assert [b] + (bs[1..] + r) == bs + r;
      }
    } else {
      assert Escapes(bs) + rest == rest;
      match PercentBytes(rest) {
        case None =>
        case Some(r) => assert bs + r == r;
      }
    }
  }

  /** The bytes `encodeURIComponent`'s output denotes are the UTF-8 bytes of its input. */
  lemma {:induction false} EncodedBytes(s: string)
    ensures PercentBytes(EncodeURIComponent(s)) == Some(Utf8Text(s))
  {
    if s != [] {
      var c := s[0];
      EncodedBytes(s[1..]);
      var tail := EncodeURIComponent(s[1..]);
      if Unreserved(c) {
        assert ([c] + tail)[1..] == tail;
      } else {
        EscapesBytes(Utf8(c), tail);
      }
    }
  }

  /** Percent-decoding undoes `encodeURIComponent`. */
  lemma DecodeEncode(s: string)
    ensures PercentDecode(EncodeURIComponent(s)) == Some(s)
  {
    EncodedBytes(s);
    Utf8RoundTrip(s);
  }
}
