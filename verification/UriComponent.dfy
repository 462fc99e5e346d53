/**
 * `encodeURIComponent`, which the submit handler applies to the message
 * before it becomes the `text` query parameter: every character outside the
 * unreserved set is replaced by the percent-encoded bytes of its UTF-8 form
 * (section 2.1 of RFC 3986, UTF-8 as in RFC 3629). Its inverse is the
 * decoder, `decodeURIComponent`: decoding an encoded text gives it back.
 */
module UriComponent {
  import opened JsText

  type Byte = b: int | 0 <= b < 256

  /** The characters `encodeURIComponent` leaves as they are: ASCII letters and digits and `- _ . ! ~ * ' ( )`. */
  predicate IsUnreserved(c: char) {
    ('A' <= c <= 'Z') || ('a' <= c <= 'z') || ('0' <= c <= '9')
    || c == '-' || c == '_' || c == '.' || c == '!' || c == '~' || c == '*' || c == '\'' || c == '(' || c == ')'
  }

  /** A Unicode scalar value: a code point that is not a surrogate. */
  predicate IsScalar(cp: int) {
    0 <= cp < 0xD800 || 0xE000 <= cp < 0x110000
  }

  /** The UTF-8 encoding of a code point (section 3 of RFC 3629). */
  function Utf8(cp: int): (bytes: seq<Byte>)
    requires 0 <= cp < 0x110000
    ensures 1 <= |bytes| <= 4
  {
    if cp < 0x80 then [cp]
    else if cp < 0x800 then [0xC0 + cp / 64, 0x80 + cp % 64]
    else if cp < 0x10000 then [0xE0 + cp / 4096, 0x80 + (cp / 64) % 64, 0x80 + cp % 64]
    else [0xF0 + cp / 0x40000, 0x80 + (cp / 4096) % 64, 0x80 + (cp / 64) % 64, 0x80 + cp % 64]
  }

  const HexDigits := "0123456789ABCDEF"

  /** One byte as `%` and two upper-case hexadecimal digits. */
  function PercentByte(b: Byte): (t: string)
    ensures |t| == 3 && t[0] == '%' && IsUnreserved(t[1]) && IsUnreserved(t[2])
  {
    ['%', HexDigits[b / 16], HexDigits[b % 16]]
  }

  function PercentBytes(bs: seq<Byte>): (t: string)
    ensures |t| == 3 * |bs|
    ensures bs != [] ==> t[0] == '%'
    ensures forall i :: 0 <= i < |t| ==> t[i] == '%' || IsUnreserved(t[i])
  {
    if bs == [] then [] else PercentByte(bs[0]) + PercentBytes(bs[1..])
  }

  /** The encoding of one character: itself when unreserved, its percent-encoded UTF-8 bytes otherwise. */
  function EncodeChar(c: char): (t: string)
    ensures |t| >= 1
    ensures forall i :: 0 <= i < |t| ==> t[i] == '%' || IsUnreserved(t[i])
  {
    if IsUnreserved(c) then [c] else PercentBytes(Utf8(c as int))
  }

  /** `encodeURIComponent(s)`. The result holds only unreserved characters and `%`. */
  function EncodeURIComponent(s: string): (t: string)
    ensures |t| >= |s|
    ensures forall i :: 0 <= i < |t| ==> t[i] == '%' || IsUnreserved(t[i])
  {
    if s == [] then [] else EncodeChar(s[0]) + EncodeURIComponent(s[1..])
  }

  /** The value of a hexadecimal digit in either case, and -1 for any other character. */
  function HexValue(c: char): (v: int)
    ensures -1 <= v < 16
  {
    if '0' <= c <= '9' then (c as int) - ('0' as int)
    else if 'A' <= c <= 'F' then (c as int) - ('A' as int) + 10
    else if 'a' <= c <= 'f' then (c as int) - ('a' as int) + 10
    else -1
  }

  /** The byte written as `%XY` at the front of `t`, if there is one. */
  function EscapedByte(t: string): (r: Option<Byte>)
    ensures r.Some? ==> |t| >= 3
  {
    if |t| >= 3 && t[0] == '%' && HexValue(t[1]) >= 0 && HexValue(t[2]) >= 0
    then Some(HexValue(t[1]) * 16 + HexValue(t[2]))
    else None
  }

  /** The `n` bytes written as `n` consecutive `%XY` at the front of `t`, if they are there. */
  function EscapedBytes(t: string, n: nat): (r: Option<seq<Byte>>)
    ensures r.Some? ==> |r.value| == n && 3 * n <= |t|
  {
    if n == 0 then Some([])
    else match EscapedByte(t)
      case None => None
      case Some(b) =>
        match EscapedBytes(t[3..], n - 1)
        case None => None
        case Some(rest) => Some([b] + rest)
  }

  /** The length of the UTF-8 sequence a lead byte starts, and 0 for a byte that cannot start one. */
  function SequenceLength(lead: Byte): nat {
    if lead < 0x80 then 1
    else if lead < 0xC0 then 0
    else if lead < 0xE0 then 2
    else if lead < 0xF0 then 3
    else if lead < 0xF8 then 4
    else 0
  }

  predicate IsContinuation(b: Byte) {
    0x80 <= b < 0xC0
  }

  /** The smallest code point a sequence of `n` bytes may encode; smaller ones are overlong. */
  function MinCodePoint(n: nat): int {
    if n <= 1 then 0 else if n == 2 then 0x80 else if n == 3 then 0x800 else 0x10000
  }

  /** The code point a complete UTF-8 sequence encodes, or nothing when it is not valid UTF-8. */
  function Utf8Decode(bs: seq<Byte>): (r: Option<int>)
    ensures r.Some? ==> IsScalar(r.value)
  {
    if |bs| == 0 || SequenceLength(bs[0]) != |bs| then None
    else if exists i :: 1 <= i < |bs| && !IsContinuation(bs[i]) then None
    else
      var b: seq<int> := bs;
      var cp :=
        if |b| == 1 then b[0]
        else if |b| == 2 then (b[0] - 0xC0) * 64 + (b[1] - 0x80)
        else if |b| == 3 then (b[0] - 0xE0) * 4096 + (b[1] - 0x80) * 64 + (b[2] - 0x80)
        else (b[0] - 0xF0) * 0x40000 + (b[1] - 0x80) * 4096 + (b[2] - 0x80) * 64 + (b[3] - 0x80);
      if cp < MinCodePoint(|bs|) || !IsScalar(cp) then None else Some(cp)
  }

  /** The character written as percent-encoded UTF-8 at the front of `t`, with the number of characters it takes. */
  function DecodeEscape(t: string): (r: Option<(char, nat)>)
    ensures r.Some? ==> 3 <= r.value.1 <= |t|
  {
    match EscapedByte(t)
    case None => None
    case Some(lead) =>
      var n := SequenceLength(lead);
      if n == 0 then None
      else match EscapedBytes(t, n)
        case None => None
        case Some(bs) =>
          match Utf8Decode(bs)
          case None => None
          case Some(cp) => Some((cp as char, 3 * n))
  }

  /** `decodeURIComponent(t)`, with nothing for the inputs on which it throws a `URIError`. */
  function DecodeURIComponent(t: string): (r: Option<string>)
    decreases |t|
  {
    if t == [] then Some([])
    else if t[0] != '%' then
      match DecodeURIComponent(t[1..])
      case None => None
      case Some(rest) => Some([t[0]] + rest)
    else
      match DecodeEscape(t)
      case None => None
      case Some(e) =>
        match DecodeURIComponent(t[e.1..])
        case None => None
        case Some(rest) => Some([e.0] + rest)
  }

  lemma HexDigitValue(n: int)
    requires 0 <= n < 16
    ensures HexValue(HexDigits[n]) == n
  {
  }

  lemma {:induction false} EscapedBytesOfPercents(bs: seq<Byte>, rest: string)
    ensures EscapedBytes(PercentBytes(bs) + rest, |bs|) == Some(bs)
  {
    if bs != [] {
      var t := PercentBytes(bs) + rest;
      HexDigitValue(bs[0] / 16);
      HexDigitValue(bs[0] % 16);
      assert t[..3] == PercentByte(bs[0]);
      assert EscapedByte(t) == Some(bs[0]);
      assert t[3..] == PercentBytes(bs[1..]) + rest;
      EscapedBytesOfPercents(bs[1..], rest);
      assert [bs[0]] + bs[1..] == bs;
    }
  }

  /** A two-byte sequence carries the upper five and the lower six bits of its code point. */
  lemma Utf8RoundTrip2(cp: int)
    requires 0x80 <= cp < 0x800
    ensures SequenceLength(Utf8(cp)[0]) == 2
    ensures Utf8Decode(Utf8(cp)) == Some(cp)
  {
    var q, r := cp / 64, cp % 64;
    assert cp == 64 * q + r;
    assert 2 <= q < 32;
    var b: seq<int> := Utf8(cp);
    assert b == [0xC0 + q, 0x80 + r];
    assert (b[0] - 0xC0) * 64 + (b[1] - 0x80) == cp;
  }

  /** A three-byte sequence carries the upper four, the middle six and the lower six bits. */
  lemma Utf8RoundTrip3(cp: int)
    requires 0x800 <= cp < 0x10000 && IsScalar(cp)
    ensures SequenceLength(Utf8(cp)[0]) == 3
    ensures Utf8Decode(Utf8(cp)) == Some(cp)
  {
    var q, r := cp / 64, cp % 64;
    var q2, r2 := q / 64, q % 64;
    assert cp == 64 * q + r;
    assert q == 64 * q2 + r2;
    assert cp == 4096 * q2 + 64 * r2 + r;
    assert q2 == cp / 4096;
    assert 0 <= q2 < 16;
    var b: seq<int> := Utf8(cp);
    assert b == [0xE0 + q2, 0x80 + r2, 0x80 + r];
    assert (b[0] - 0xE0) * 4096 + (b[1] - 0x80) * 64 + (b[2] - 0x80) == cp;
  }

  /** A four-byte sequence carries the upper three bits and three groups of six. */
  lemma Utf8RoundTrip4(cp: int)
    requires 0x10000 <= cp < 0x110000
    ensures SequenceLength(Utf8(cp)[0]) == 4
    ensures Utf8Decode(Utf8(cp)) == Some(cp)
  {
    var q, r := cp / 64, cp % 64;
    var q2, r2 := q / 64, q % 64;
    var q3, r3 := q2 / 64, q2 % 64;
    assert cp == 64 * q + r;
    assert q == 64 * q2 + r2;
    assert q2 == 64 * q3 + r3;
    assert cp == 0x40000 * q3 + 4096 * r3 + 64 * r2 + r;
    assert q2 == cp / 4096;
    assert q3 == cp / 0x40000;
    assert 0 <= q3 < 5;
    var b: seq<int> := Utf8(cp);
    assert b == [0xF0 + q3, 0x80 + r3, 0x80 + r2, 0x80 + r];
    assert (b[0] - 0xF0) * 0x40000 + (b[1] - 0x80) * 4096 + (b[2] - 0x80) * 64 + (b[3] - 0x80) == cp;
  }

  /** Decoding the UTF-8 form of a scalar value gives it back, and its lead byte announces its length. */
  lemma Utf8RoundTrip(cp: int)
    requires IsScalar(cp)
    ensures SequenceLength(Utf8(cp)[0]) == |Utf8(cp)|
    ensures Utf8Decode(Utf8(cp)) == Some(cp)
  {
    if cp < 0x80 {
    } else if cp < 0x800 {
      Utf8RoundTrip2(cp);
    } else if cp < 0x10000 {
      Utf8RoundTrip3(cp);
    } else {
      Utf8RoundTrip4(cp);
    }
  }

  /** A character outside the unreserved set is read back from its percent-encoded form. */
  lemma DecodeEscapeOfChar(c: char, rest: string)
    requires !IsUnreserved(c)
    ensures DecodeEscape(EncodeChar(c) + rest) == Some((c, |EncodeChar(c)|))
  {
    var cp := c as int;
    var bs := Utf8(cp);
    var t := EncodeChar(c) + rest;
    Utf8RoundTrip(cp);
    EscapedBytesOfPercents(bs, rest);
    EscapedBytesOfPercents(bs[..1], PercentBytes(bs[1..]) + rest);
    assert bs[..1] + bs[1..] == bs;
    assert PercentBytes(bs[..1]) + PercentBytes(bs[1..]) == PercentBytes(bs);
    assert EscapedByte(t) == Some(bs[0]);
  }

  /** `decodeURIComponent(encodeURIComponent(s)) === s`. */
  lemma {:induction false} DecodeEncode(s: string)
    ensures DecodeURIComponent(EncodeURIComponent(s)) == Some(s)
  {
    if s != [] {
      var c := s[0];
      var tail := EncodeURIComponent(s[1..]);
      var t := EncodeChar(c) + tail;
      DecodeEncode(s[1..]);
      if IsUnreserved(c) {
        assert t[0] == c && t[1..] == tail;
      } else {
        DecodeEscapeOfChar(c, tail);
        assert t[|EncodeChar(c)|..] == tail;
      }
      assert [c] + s[1..] == s;
    }
  }

  /** Different texts never encode alike. */
  lemma EncodeInjective(a: string, b: string)
    requires EncodeURIComponent(a) == EncodeURIComponent(b)
    ensures a == b
  {
    DecodeEncode(a);
    DecodeEncode(b);
  }
}
