/**
 * `encodeURIComponent` and `decodeURIComponent` (ECMA-262, sections 19.2.6.5
 * and 19.2.6.2, over the percent-encoding of section 2.1 of RFC 3986). A Dafny
 * `char` is a Unicode scalar value, so every string here is well-formed UTF-16
 * and encoding cannot fail.
 */
module UriComponent {

  import opened Wrappers

  type Byte = b: int | 0 <= b < 256

  /** The characters `encodeURIComponent` leaves as they are: ALPHA, DIGIT and `-_.!~*'()`. */
  predicate Unreserved(c: char)
  {
    ('A' <= c <= 'Z') || ('a' <= c <= 'z') || ('0' <= c <= '9') ||
    c == '-' || c == '_' || c == '.' || c == '!' || c == '~' || c == '*' || c == '\'' || c == '(' || c == ')'
  }

  predicate IsUpperHex(c: char) { ('0' <= c <= '9') || ('A' <= c <= 'F') }

  /** The characters an encoded component may contain. */
  predicate EncodedChar(c: char) { Unreserved(c) || c == '%' || IsUpperHex(c) }

  /** The UTF-8 encoding of one scalar value. */
  function Utf8(c: char): (bs: seq<Byte>)
    ensures 1 <= |bs| <= 4
  {
    var n := c as int;
    if n < 0x80 then [n]
    else if n < 0x800 then [0xC0 + n / 64, 0x80 + n % 64]
    else if n < 0x10000 then [0xE0 + n / 4096, 0x80 + (n / 64) % 64, 0x80 + n % 64]
    else [0xF0 + n / 262144, 0x80 + (n / 4096) % 64, 0x80 + (n / 64) % 64, 0x80 + n % 64]
  }

  function HexDigit(d: int): (c: char)
    requires 0 <= d < 16
    ensures IsUpperHex(c)
  {
    if d < 10 then ('0' as int + d) as char else ('A' as int + d - 10) as char
  }

  /** A hexadecimal digit of either case, as the decoder accepts it. */
  function HexValue(c: char): Option<int>
  {
    if '0' <= c <= '9' then Some(c as int - '0' as int)
    else if 'A' <= c <= 'F' then Some(c as int - 'A' as int + 10)
    else if 'a' <= c <= 'f' then Some(c as int - 'a' as int + 10)
    else None
  }

  /** `%XY` for one byte, upper-case hexadecimal. */
  function Escape(b: Byte): (r: string)
    ensures |r| == 3 && r[0] == '%' && IsUpperHex(r[1]) && IsUpperHex(r[2])
  {
    ['%', HexDigit(b / 16), HexDigit(b % 16)]
  }

  function EscapeAll(bs: seq<Byte>): (r: string)
    ensures |r| == 3 * |bs|
    ensures forall i :: 0 <= i < |r| ==> r[i] == '%' || IsUpperHex(r[i])
  {
    if bs == [] then [] else Escape(bs[0]) + EscapeAll(bs[1..])
  }

  function EncodeChar(c: char): (r: string)
    ensures forall i :: 0 <= i < |r| ==> EncodedChar(r[i])
  {
    if Unreserved(c) then [c] else EscapeAll(Utf8(c))
  }

  /** `encodeURIComponent(s)`. */
  function Encode(s: string): (r: string)
    ensures forall i :: 0 <= i < |r| ==> EncodedChar(r[i])
  {
    if s == [] then [] else EncodeChar(s[0]) + Encode(s[1..])
  }

  /** The byte written as `%XY` at position `k`, if there is one. */
  function ByteAt(s: string, k: nat): Option<Byte>
  {
    if k + 3 <= |s| && s[k] == '%' then
      match (HexValue(s[k + 1]), HexValue(s[k + 2]))
      case (Some(h), Some(l)) => if 0 <= h < 16 && 0 <= l < 16 then Some(h * 16 + l) else None
      case _ => None
    else None
  }

  /** `n` consecutive escapes at the start of `s`. */
  function ReadBytes(s: string, n: nat): (r: Option<seq<Byte>>)
    ensures r.Some? ==> |r.value| == n && 3 * n <= |s|
  {
    if n == 0 then Some([])
    else match ByteAt(s, 0)
      case None => None
      case Some(b) =>
        match ReadBytes(s[3..], n - 1)
        case None => None
        case Some(rest) => Some([b] + rest)
  }

  /** How many bytes a UTF-8 sequence with this lead byte has; 0 when it cannot lead one. */
  function SequenceLength(b: Byte): nat
  {
    if b < 0x80 then 1 else if 0xC0 <= b < 0xE0 then 2 else if 0xE0 <= b < 0xF0 then 3
    else if 0xF0 <= b < 0xF8 then 4 else 0
  }

  predicate IsContinuation(b: Byte) { 0x80 <= b < 0xC0 }

  predicate IsScalar(n: int) { (0 <= n < 0xD800) || (0xE000 <= n < 0x110000) }

  /** The scalar value a byte sequence encodes, rejecting overlong forms, surrogates and values past U+10FFFF. */
  function DecodeUtf8(bs: seq<Byte>): Option<char>
  {
    var b := seq(|bs|, i requires 0 <= i < |bs| => bs[i] as int);
    if |bs| == 1 then
      if bs[0] < 0x80 then Some(bs[0] as char) else None
    else if |bs| == 2 && 0xC0 <= bs[0] < 0xE0 && IsContinuation(bs[1]) then
      var n := (b[0] - 0xC0) * 64 + (b[1] - 0x80);
      if 0x80 <= n then Some(n as char) else None
    else if |bs| == 3 && 0xE0 <= bs[0] < 0xF0 && IsContinuation(bs[1]) && IsContinuation(bs[2]) then
      var n := (b[0] - 0xE0) * 4096 + (b[1] - 0x80) * 64 + (b[2] - 0x80);
      if 0x800 <= n && IsScalar(n) then Some(n as char) else None
    else if |bs| == 4 && 0xF0 <= bs[0] < 0xF8 && IsContinuation(bs[1]) && IsContinuation(bs[2]) && IsContinuation(bs[3]) then
      var n := (b[0] - 0xF0) * 262144 + (b[1] - 0x80) * 4096 + (b[2] - 0x80) * 64 + (b[3] - 0x80);
      if 0x10000 <= n && IsScalar(n) then Some(n as char) else None
    else None
  }

  /** `decodeURIComponent(s)`; None where it throws a URIError. */
  function Decode(s: string): Option<string>
    decreases |s|
  {
    if s == [] then Some([])
    else if s[0] != '%' then
      match Decode(s[1..])
      case None => None
      case Some(t) => Some([s[0]] + t)
    else
      match ByteAt(s, 0)
      case None => None
      case Some(b0) =>
        var n := SequenceLength(b0);
        if n == 0 then None
        else match ReadBytes(s, n)
          case None => None
          case Some(bs) =>
            match DecodeUtf8(bs)
            case None => None
            case Some(c) =>
              match Decode(s[3 * n..])
              case None => None
              case Some(t) => Some([c] + t)
  }

  lemma HexRoundTrip(d: int)
    requires 0 <= d < 16
    ensures HexValue(HexDigit(d)) == Some(d)
  {
  }

  lemma EscapeRoundTrip(b: Byte, rest: string)
    ensures ByteAt(Escape(b) + rest, 0) == Some(b)
  {
    HexRoundTrip(b / 16);
    HexRoundTrip(b % 16);
  }

  lemma {:induction false} ReadEscaped(bs: seq<Byte>, rest: string)
    ensures ReadBytes(EscapeAll(bs) + rest, |bs|) == Some(bs)
  {
    if bs != [] {
      var s := EscapeAll(bs) + rest;
      assert s == Escape(bs[0]) + (EscapeAll(bs[1..]) + rest);
      EscapeRoundTrip(bs[0], EscapeAll(bs[1..]) + rest);
      assert ByteAt(s, 0) == Some(bs[0]);
      assert s[3..] == EscapeAll(bs[1..]) + rest;
      ReadEscaped(bs[1..], rest);
      assert [bs[0]] + bs[1..] == bs;
    }
  }

  /** Every scalar value's UTF-8 form announces its own length and decodes back to it. */
  lemma Utf8RoundTrip(c: char)
    ensures SequenceLength(Utf8(c)[0]) == |Utf8(c)|
    ensures DecodeUtf8(Utf8(c)) == Some(c)
  {
    var n := c as int;
    assert IsScalar(n);
    if n < 0x80 {
    } else if n < 0x800 {
      TwoByteRoundTrip(c);
    } else if n < 0x10000 {
      ThreeByteRoundTrip(c);
    } else {
      FourByteRoundTrip(c);
    }
  }

  lemma TwoByteRoundTrip(c: char)
    requires 0x80 <= c as int < 0x800
    ensures SequenceLength(Utf8(c)[0]) == 2
    ensures DecodeUtf8(Utf8(c)) == Some(c)
  {
    var n := c as int;
    assert (n / 64) * 64 + n % 64 == n;
  }

  lemma ThreeByteRoundTrip(c: char)
    requires 0x800 <= c as int < 0x10000 && IsScalar(c as int)
    ensures SequenceLength(Utf8(c)[0]) == 3
    ensures DecodeUtf8(Utf8(c)) == Some(c)
  {
    var n := c as int;
    var q := n / 64;
    assert q * 64 + n % 64 == n;
    assert n / 4096 == q / 64;
    assert (q / 64) * 64 + q % 64 == q;
  }

  lemma FourByteRoundTrip(c: char)
    requires 0x10000 <= c as int
    ensures SequenceLength(Utf8(c)[0]) == 4
    ensures DecodeUtf8(Utf8(c)) == Some(c)
  {
    var n := c as int;
    assert IsScalar(n);
    var q := n / 64;
    var q2 := q / 64;
    assert q * 64 + n % 64 == n;
    assert n / 4096 == q2;
    assert q2 * 64 + q % 64 == q;
    assert n / 262144 == q2 / 64;
    assert (q2 / 64) * 64 + q2 % 64 == q2;
  }

  /** Decoding undoes the encoding of one character in front of any text. */
  lemma DecodeEncodeChar(c: char, rest: string)
    ensures Decode(EncodeChar(c) + rest) == match Decode(rest) case None => None case Some(t) => Some([c] + t)
  {
    var s := EncodeChar(c) + rest;
    if Unreserved(c) {
      assert s[0] == c && s[1..] == rest;
    } else {
      var bs := Utf8(c);
      assert s == Escape(bs[0]) + (EscapeAll(bs[1..]) + rest);
      EscapeRoundTrip(bs[0], EscapeAll(bs[1..]) + rest);
      Utf8RoundTrip(c);
      ReadEscaped(bs, rest);
      assert s[3 * |bs|..] == rest;
    }
  }

  /** `decodeURIComponent(encodeURIComponent(s)) === s`. */
  lemma {:induction false} DecodeEncode(s: string)
    ensures Decode(Encode(s)) == Some(s)
  {
    if s != [] {
      var tail := Encode(s[1..]);
      assert Encode(s) == EncodeChar(s[0]) + tail;
      DecodeEncode(s[1..]);
      DecodeEncodeChar(s[0], tail);
      assert [s[0]] + s[1..] == s;
    }
  }

  /** An encoded component holds none of the URL delimiters `&`, `=`, `?`, `/`, `:`, `#`. */
  lemma EncodedHasNoDelimiters(s: string)
    ensures forall i :: 0 <= i < |Encode(s)| ==> Encode(s)[i] !in "&=?/:#"
  {
  }
}
