/**
 * `encodeURIComponent`, the host function the list query applies to its
 * filter: every character outside the unreserved set
 * `A-Z a-z 0-9 - _ . ! ~ * ' ( )` is replaced by the percent-escapes of its
 * UTF-8 bytes, written with upper-case hexadecimal digits. Characters here
 * are Unicode scalar values, so the lone-surrogate error of the host
 * function cannot arise. The partner is a percent-decoder to bytes.
 */
module UriEncoding {
  import opened Wrappers

  type Byte = b: int | 0 <= b < 256

  predicate IsUnreserved(c: char) {
    || ('A' <= c <= 'Z') || ('a' <= c <= 'z') || ('0' <= c <= '9')
    || c == '-' || c == '_' || c == '.' || c == '!' || c == '~'
    || c == '*' || c == '\'' || c == '(' || c == ')'
  }

  // ---------------------------------------------------------------------
  // UTF-8
  // ---------------------------------------------------------------------

  /** The UTF-8 encoding of one scalar value. */
  function Utf8(c: char): (bs: seq<Byte>)
    ensures 1 <= |bs| <= 4
    ensures |bs| == 1 <==> c as int < 0x80
    ensures |bs| == 1 ==> bs[0] == c as int
  {
    var n := c as int;
    if n < 0x80 then [n]
    else if n < 0x800 then [0xC0 + n / 0x40, 0x80 + n % 0x40]
    else if n < 0x10000 then [0xE0 + n / 0x1000, 0x80 + (n / 0x40) % 0x40, 0x80 + n % 0x40]
    else [0xF0 + n / 0x40000, 0x80 + (n / 0x1000) % 0x40, 0x80 + (n / 0x40) % 0x40, 0x80 + n % 0x40]
  }

  function Utf8Encode(s: string): seq<Byte>
  {
    if s == [] then [] else Utf8(s[0]) + Utf8Encode(s[1..])
  }

  // ---------------------------------------------------------------------
  // Hexadecimal digits
  // ---------------------------------------------------------------------

  predicate IsHexDigit(c: char) { ('0' <= c <= '9') || ('A' <= c <= 'F') || ('a' <= c <= 'f') }

  /** The upper-case hexadecimal digit for `d`. */
  function HexDigit(d: nat): (c: char)
    requires d < 16
    ensures IsHexDigit(c) && HexValue(c) == d
    ensures IsUnreserved(c)
  {
    if d < 10 then ('0' as int + d) as char else ('A' as int + d - 10) as char
  }

  function HexValue(c: char): (d: nat)
    requires IsHexDigit(c)
    ensures d < 16
  {
    if '0' <= c <= '9' then c as int - '0' as int
    else if 'A' <= c <= 'F' then c as int - 'A' as int + 10
    else c as int - 'a' as int + 10
  }

  // ---------------------------------------------------------------------
  // Encoding
  // ---------------------------------------------------------------------

  function PercentByte(b: Byte): string
  {
    ['%', HexDigit(b / 16), HexDigit(b % 16)]
  }

  function PercentBytes(bs: seq<Byte>): string
  {
    if bs == [] then [] else PercentByte(bs[0]) + PercentBytes(bs[1..])
  }

  function EncodeChar(c: char): string
  {
    if IsUnreserved(c) then [c] else PercentBytes(Utf8(c))
  }

  /** Every character of the result is unreserved or a percent sign. */
  predicate IsEncoded(s: string) {
    forall i :: 0 <= i < |s| ==> IsUnreserved(s[i]) || s[i] == '%'
  }

  /** `encodeURIComponent(s)` */
  function EncodeUriComponent(s: string): (r: string)
    ensures IsEncoded(r)
    ensures |r| >= |s|
  {
    if s == [] then []
    else
      EncodeCharIsEncoded(s[0]);
      EncodeChar(s[0]) + EncodeUriComponent(s[1..])
  }

  lemma {:induction false} PercentBytesIsEncoded(bs: seq<Byte>)
    ensures IsEncoded(PercentBytes(bs))
    ensures |PercentBytes(bs)| == 3 * |bs|
  {
    if bs != [] {
      PercentBytesIsEncoded(bs[1..]);
    }
  }

  lemma EncodeCharIsEncoded(c: char)
    ensures IsEncoded(EncodeChar(c))
    ensures |EncodeChar(c)| == 1 <==> IsUnreserved(c)
    ensures |EncodeChar(c)| >= 1
  {
    if !IsUnreserved(c) {
      PercentBytesIsEncoded(Utf8(c));
    }
  }

  /** Encoding changes nothing exactly when every character is unreserved. */
  lemma {:induction false} EncodeIdentityIff(s: string)
    ensures EncodeUriComponent(s) == s <==> forall i :: 0 <= i < |s| ==> IsUnreserved(s[i])
  {
    if s != [] {
      EncodeIdentityIff(s[1..]);
      EncodeCharIsEncoded(s[0]);
      var e := EncodeUriComponent(s);
      if IsUnreserved(s[0]) {
        assert e == [s[0]] + EncodeUriComponent(s[1..]);
        assert s == [s[0]] + s[1..];
        if e == s {
          assert EncodeUriComponent(s[1..]) == s[1..];
        }
      } else {
        assert |e| > |s|;
      }
    }
  }

  // ---------------------------------------------------------------------
  // Decoding to bytes: the partner of the encoder
  // ---------------------------------------------------------------------

  function Prepend(bs: seq<Byte>, rest: Option<seq<Byte>>): Option<seq<Byte>>
  {
    match rest
    case None => None
    case Some(tail) => Some(bs + tail)
  }

  /**
   * The bytes a percent-encoded string stands for: `%XY` is the byte with
   * hexadecimal value XY, an unreserved character its ASCII code; any other
   * character, or a malformed escape, makes the string undecodable.
   */
  function DecodeToBytes(s: string): Option<seq<Byte>>
    decreases |s|
  {
    if s == [] then Some([])
    else if s[0] == '%' then
      if |s| >= 3 && IsHexDigit(s[1]) && IsHexDigit(s[2])
      then Prepend([HexValue(s[1]) * 16 + HexValue(s[2])], DecodeToBytes(s[3..]))
      else None
    else if IsUnreserved(s[0]) && s[0] as int < 0x80 then Prepend([s[0] as int], DecodeToBytes(s[1..]))
    else None
  }

  lemma {:induction false} DecodePercentBytes(bs: seq<Byte>, rest: string)
    ensures DecodeToBytes(PercentBytes(bs) + rest) == Prepend(bs, DecodeToBytes(rest))
  {
    if bs == [] {
      assert PercentBytes(bs) + rest == rest;
      match DecodeToBytes(rest) {
        case None =>
        case Some(t) => assert bs + t == t;
      }
    } else {
      var s := PercentBytes(bs) + rest;
      var b := bs[0];
      assert s == PercentByte(b) + (PercentBytes(bs[1..]) + rest);
      assert s[0] == '%' && s[1] == HexDigit(b / 16) && s[2] == HexDigit(b % 16);
      assert s[3..] == PercentBytes(bs[1..]) + rest;
      DecodePercentBytes(bs[1..], rest);
      assert HexValue(s[1]) * 16 + HexValue(s[2]) == b;
      match DecodeToBytes(rest) {
        case None =>
        case Some(t) => assert [b] + (bs[1..] + t) == bs + t;
      }
    }
  }

  /** Decoding the encoder's output yields the UTF-8 bytes of the input. */
  lemma {:induction false} DecodeEncode(s: string)
    ensures DecodeToBytes(EncodeUriComponent(s)) == Some(Utf8Encode(s))
  {
    if s != [] {
      var c := s[0];
      var tail := EncodeUriComponent(s[1..]);
      DecodeEncode(s[1..]);
      assert EncodeUriComponent(s) == EncodeChar(c) + tail;
      if IsUnreserved(c) {
        assert (EncodeChar(c) + tail)[1..] == tail;
      } else {
        DecodePercentBytes(Utf8(c), tail);
      }
    }
  }

  /** Equal encodings come from inputs with equal UTF-8 bytes. */
  lemma EncodingDeterminesBytes(a: string, b: string)
    requires EncodeUriComponent(a) == EncodeUriComponent(b)
    ensures Utf8Encode(a) == Utf8Encode(b)
  {
    DecodeEncode(a);
    DecodeEncode(b);
  }
}
