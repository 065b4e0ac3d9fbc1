/**
 * `String.addingPercentEncoding(withAllowedCharacters:)`: every character of
 * the allowed set is kept, every other character is replaced by the UTF-8
 * bytes of its code point, each written as `%` and two upper-case hex digits.
 *
 * A decoder is defined beside the encoder so that the encoding can be stated
 * as a round trip: decoding the encoded text gives back the UTF-8 bytes of
 * the input.
 */
module PercentEncoding {
  import opened Wrappers

  type Byte = b: int | 0 <= b < 256

  /** The characters `addingPercentEncoding` may leave as they are. */
  type CharSet = char -> bool

  predicate IsAsciiAlphanumeric(c: char)
  {
    ('a' <= c <= 'z') || ('A' <= c <= 'Z') || ('0' <= c <= '9')
  }

  /** The explicit set `abc…xyzABC…XYZ0123456789-._~` plus space. */
  predicate SearchQueryAllowed(c: char)
  {
    IsAsciiAlphanumeric(c) || c == '-' || c == '.' || c == '_' || c == '~' || c == ' '
  }

  /** `CharacterSet.urlQueryAllowed`: the characters RFC 3986 permits in a query. */
  predicate UrlQueryAllowed(c: char)
  {
    IsAsciiAlphanumeric(c)
    || c == '!' || c == '$' || c == '&' || c == '\'' || c == '(' || c == ')'
    || c == '*' || c == '+' || c == ',' || c == '-' || c == '.' || c == '/'
    || c == ':' || c == ';' || c == '=' || c == '?' || c == '@' || c == '_' || c == '~'
  }

  // ---------------------------------------------------------------------------
  // UTF-8

  /** The UTF-8 encoding of one Unicode scalar value. */
  function Utf8(c: char): (r: seq<Byte>)
    ensures 1 <= |r| <= 4
    ensures c as int < 0x80 ==> r == [c as int]
  {
    var n := c as int;
    if n < 0x80 then [n]
    else if n < 0x800 then [0xC0 + n / 0x40, 0x80 + n % 0x40]
    else if n < 0x1_0000 then [0xE0 + n / 0x1000, 0x80 + (n / 0x40) % 0x40, 0x80 + n % 0x40]
    else [0xF0 + n / 0x4_0000, 0x80 + (n / 0x1000) % 0x40, 0x80 + (n / 0x40) % 0x40, 0x80 + n % 0x40]
  }

  /** Every byte of a non-ASCII character has its high bit set, so none is mistaken for ASCII. */
  lemma Utf8NonAsciiHighBytes(c: char)
    requires c as int >= 0x80
    ensures forall i :: 0 <= i < |Utf8(c)| ==> Utf8(c)[i] >= 0x80
  {
  }

  function Utf8String(s: string): (r: seq<Byte>)
    ensures |r| >= |s|
  {
    if s == [] then [] else Utf8(s[0]) + Utf8String(s[1..])
  }

  // ---------------------------------------------------------------------------
  // Hex digits

  predicate IsUpperHexDigit(c: char)
  {
    ('0' <= c <= '9') || ('A' <= c <= 'F')
  }

  function HexDigit(n: int): (c: char)
    requires 0 <= n < 16
    ensures IsUpperHexDigit(c)
  {
    if n < 10 then ('0' as int + n) as char else ('A' as int + n - 10) as char
  }

  function HexValue(c: char): (n: int)
    requires IsUpperHexDigit(c)
    ensures 0 <= n < 16
    ensures HexDigit(n) == c
  {
    if c <= '9' then c as int - '0' as int else c as int - 'A' as int + 10
  }

  /** `%XX` for one byte. */
  function EncodeByte(b: Byte): (r: string)
    ensures |r| == 3 && r[0] == '%' && IsUpperHexDigit(r[1]) && IsUpperHexDigit(r[2])
    ensures HexValue(r[1]) * 16 + HexValue(r[2]) == b
  {
    ['%', HexDigit(b / 16), HexDigit(b % 16)]
  }

  function EncodeBytes(bs: seq<Byte>): (r: string)
    ensures |r| == 3 * |bs|
  {
    if bs == [] then [] else EncodeByte(bs[0]) + EncodeBytes(bs[1..])
  }

  // ---------------------------------------------------------------------------
  // Encoding and decoding

  function EncodeChar(c: char, allowed: CharSet): (r: string)
  {
    if allowed(c) then [c] else EncodeBytes(Utf8(c))
  }

  /** `s.addingPercentEncoding(withAllowedCharacters: allowed)`. */
  function PercentEncode(s: string, allowed: CharSet): (r: string)
    ensures |r| >= |s|
  {
    if s == [] then [] else EncodeChar(s[0], allowed) + PercentEncode(s[1..], allowed)
  }

  /**
   * Reads percent-encoded text back into bytes: `%XX` is one byte, any other
   * character stands for its own UTF-8 bytes; a `%` not followed by two
   * upper-case hex digits is malformed.
   */
  function PercentDecode(t: string): (r: Option<seq<Byte>>)
  {
    if t == [] then Some([])
    else if t[0] == '%' then
      if |t| >= 3 && IsUpperHexDigit(t[1]) && IsUpperHexDigit(t[2]) then
        match PercentDecode(t[3..])
        case Some(rest) => Some([HexValue(t[1]) * 16 + HexValue(t[2])] + rest)
        case None => None
      else None
    else
      match PercentDecode(t[1..])
      case Some(rest) => Some(Utf8(t[0]) + rest)
      case None => None
  }

  // ---------------------------------------------------------------------------
  // Properties

  /** Encoding is applied character by character, so it distributes over `+`. */
  lemma {:induction false} EncodeAppend(a: string, b: string, allowed: CharSet)
    ensures PercentEncode(a + b, allowed) == PercentEncode(a, allowed) + PercentEncode(b, allowed)
  {
    if a != [] {
      assert (a + b)[0] == a[0] && (a + b)[1..] == a[1..] + b;
      EncodeAppend(a[1..], b, allowed);
    } else {
      assert a + b == b;
    }
  }

  /** A string made only of allowed characters is left unchanged. */
  lemma {:induction false} EncodeAllowedUnchanged(s: string, allowed: CharSet)
    requires forall i :: 0 <= i < |s| ==> allowed(s[i])
    ensures PercentEncode(s, allowed) == s
  {
    if s != [] {
      EncodeAllowedUnchanged(s[1..], allowed);
    }
  }

  /** The encoded text holds allowed characters, `%` and upper-case hex digits only. */
  lemma {:induction false} EncodeAlphabet(s: string, allowed: CharSet)
    ensures forall c :: c in PercentEncode(s, allowed) ==> allowed(c) || c == '%' || IsUpperHexDigit(c)
  {
    if s != [] {
      EncodeAlphabet(s[1..], allowed);
      if !allowed(s[0]) {
        EncodeBytesAlphabet(Utf8(s[0]));
      }
    }
  }

  /** A character that is neither allowed, `%` nor a hex digit never appears in the encoded text. */
  lemma EncodedExcludes(s: string, allowed: CharSet, c: char)
    requires !allowed(c) && c != '%' && !IsUpperHexDigit(c)
    ensures c !in PercentEncode(s, allowed)
  {
    EncodeAlphabet(s, allowed);
  }

  lemma {:induction false} EncodeBytesAlphabet(bs: seq<Byte>)
    ensures forall c :: c in EncodeBytes(bs) ==> c == '%' || IsUpperHexDigit(c)
  {
    if bs != [] {
      EncodeBytesAlphabet(bs[1..]);
    }
  }

  lemma AppendAssociative<T>(a: seq<T>, b: seq<T>, c: seq<T>)
    ensures (a + b) + c == a + (b + c)
  {
  }

  /** Decoding reads an encoded byte back off the front of the text. */
  lemma DecodeEncodedByte(b: Byte, u: string)
    requires PercentDecode(u).Some?
    ensures PercentDecode(EncodeByte(b) + u) == Some([b] + PercentDecode(u).value)
  {
    var e := EncodeByte(b);
    var t := e + u;
    assert t[0] == '%' && t[1] == e[1] && t[2] == e[2];
    assert t[3..] == u;
  }

  /** Decoding reads encoded bytes back off the front of the text. */
  lemma {:induction false} DecodeEncodedBytes(bs: seq<Byte>, t: string)
    requires PercentDecode(t).Some?
    ensures PercentDecode(EncodeBytes(bs) + t) == Some(bs + PercentDecode(t).value)
  {
    var rest := PercentDecode(t).value;
    if bs == [] {
      assert EncodeBytes(bs) + t == t;
      assert bs + rest == rest;
    } else {
      var u := EncodeBytes(bs[1..]) + t;
      DecodeEncodedBytes(bs[1..], t);
      DecodeEncodedByte(bs[0], u);
      calc {
        PercentDecode(EncodeBytes(bs) + t);
        { AppendAssociative(EncodeByte(bs[0]), EncodeBytes(bs[1..]), t); }
        PercentDecode(EncodeByte(bs[0]) + u);
        Some([bs[0]] + (bs[1..] + rest));
        { AppendAssociative([bs[0]], bs[1..], rest); assert [bs[0]] + bs[1..] == bs; }
        Some(bs + rest);
      }
    }
  }

  /**
   * Round trip: decoding the encoded text gives the UTF-8 bytes of the input,
   * whenever `%` itself is not in the allowed set (it is in neither set the
   * app uses).
   */
  lemma {:induction false} DecodeEncode(s: string, allowed: CharSet)
    requires !allowed('%')
    ensures PercentDecode(PercentEncode(s, allowed)) == Some(Utf8String(s))
  {
    if s != [] {
      var c := s[0];
      var rest := PercentEncode(s[1..], allowed);
      DecodeEncode(s[1..], allowed);
      if allowed(c) {
        assert PercentEncode(s, allowed) == [c] + rest;
        assert ([c] + rest)[1..] == rest;
      } else {
        assert PercentEncode(s, allowed) == EncodeBytes(Utf8(c)) + rest;
        DecodeEncodedBytes(Utf8(c), rest);
      }
    }
  }

  lemma AllowedSetsExcludePercent()
    ensures !SearchQueryAllowed('%') && !UrlQueryAllowed('%')
  {
  }
}
