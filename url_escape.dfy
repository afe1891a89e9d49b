/**
 * Query-component escaping as Go's url.QueryEscape performs it (used by url.Values.Encode):
 * the string is taken as its UTF-8 bytes; letters, digits and "-_.~" are kept, a space
 * becomes '+', and every other byte becomes '%' and two upper-case hex digits.
 * QueryUnescape is the inverse, as the server applies it.
 */
module UrlEscape {
  import opened Wrappers

  type byte = b: int | 0 <= b < 256

  /** The UTF-8 encoding of one Unicode scalar value. */
  function CharBytes(c: char): (bs: seq<byte>)
    ensures 1 <= |bs| <= 4
    ensures c as int < 128 ==> bs == [c as int]
    ensures c as int >= 128 ==> forall k :: 0 <= k < |bs| ==> bs[k] >= 128
  {
    var n := c as int;
    if n < 0x80 then [n]
    else if n < 0x800 then [0xC0 + n / 64, 0x80 + n % 64]
    else if n < 0x1_0000 then [0xE0 + n / 4096, 0x80 + (n / 64) % 64, 0x80 + n % 64]
    else [0xF0 + n / 262144, 0x80 + (n / 4096) % 64, 0x80 + (n / 64) % 64, 0x80 + n % 64]
  }

  /** The UTF-8 bytes of a string, as Go stores it. */
  function Utf8(s: string): (bs: seq<byte>)
    ensures |bs| >= |s|
    decreases |s|
  {
    if s == [] then [] else CharBytes(s[0]) + Utf8(s[1..])
  }

  /** The bytes that a query component keeps as they are. */
  predicate Unreserved(b: int)
  {
    || 'a' as int <= b <= 'z' as int
    || 'A' as int <= b <= 'Z' as int
    || '0' as int <= b <= '9' as int
    || b == '-' as int || b == '_' as int || b == '.' as int || b == '~' as int
  }

  /** The characters an escaped component is made of. */
  predicate SafeChar(c: char)
  {
    Unreserved(c as int) || c == '%' || c == '+'
  }

  /** An upper-case hexadecimal digit. */
  function HexDigit(d: nat): (c: char)
    requires d < 16
    ensures Unreserved(c as int) && IsHex(c) && HexValue(c) == d
  {
    if d < 10 then (d + '0' as int) as char else (d - 10 + 'A' as int) as char
  }

  predicate IsHex(c: char)
  {
    '0' <= c <= '9' || 'A' <= c <= 'F' || 'a' <= c <= 'f'
  }

  function HexValue(c: char): (d: nat)
    requires IsHex(c)
    ensures d < 16
  {
    if '0' <= c <= '9' then c as int - '0' as int
    else if 'A' <= c <= 'F' then c as int - 'A' as int + 10
    else c as int - 'a' as int + 10
  }

  /** The escaped form of one byte. */
  function EscapeByte(b: byte): (s: string)
    ensures forall k :: 0 <= k < |s| ==> SafeChar(s[k])
  {
    if Unreserved(b) then [b as char]
    else if b == ' ' as int then "+"
    else ['%', HexDigit(b / 16), HexDigit(b % 16)]
  }

  /** The escaped form of a byte string. */
  function EscapeBytes(bs: seq<byte>): (s: string)
    ensures forall k :: 0 <= k < |s| ==> SafeChar(s[k])
    decreases |bs|
  {
    if bs == [] then "" else EscapeByte(bs[0]) + EscapeBytes(bs[1..])
  }

  /** url.QueryEscape: the escaped form never holds a separator such as '&', '=', ':', ';' or '/'. */
  function QueryEscape(s: string): (e: string)
    ensures forall k :: 0 <= k < |e| ==> SafeChar(e[k])
  {
    EscapeBytes(Utf8(s))
  }

  /** url.QueryUnescape, giving bytes; None for a '%' not followed by two hex digits. */
  function QueryUnescape(s: string): (r: Option<seq<byte>>)
    ensures r.None? ==> '%' in s
    ensures r.Some? ==> |r.value| <= 4 * |s|
    decreases |s|
  {
    if s == [] then Some([])
    else if s[0] == '%' then
      if |s| >= 3 && IsHex(s[1]) && IsHex(s[2]) then
        match QueryUnescape(s[3..])
        case Some(rest) => Some([16 * HexValue(s[1]) + HexValue(s[2])] + rest)
        case None => None
      else None
    else
      match QueryUnescape(s[1..])
      case Some(rest) => Some((if s[0] == '+' then [' ' as int] else CharBytes(s[0])) + rest)
      case None => None
  }

  lemma UnescapeEscapeByte(b: byte, rest: string)
    ensures QueryUnescape(EscapeByte(b) + rest) ==
      match QueryUnescape(rest) case Some(r) => Some([b] + r) case None => None
  {
    var e := EscapeByte(b);
    var s := e + rest;
    if Unreserved(b) {
      assert s[0] == b as char && s[1..] == rest;
    } else if b == ' ' as int {
      assert s[0] == '+' && s[1..] == rest;
    } else {
      assert s[0] == '%' && s[1] == HexDigit(b / 16) && s[2] == HexDigit(b % 16);
      assert s[3..] == rest;
    }
  }

  lemma {:induction false} UnescapeEscapeBytes(bs: seq<byte>)
    ensures QueryUnescape(EscapeBytes(bs)) == Some(bs)
    decreases |bs|
  {
    if bs != [] {
      UnescapeEscapeBytes(bs[1..]);
      UnescapeEscapeByte(bs[0], EscapeBytes(bs[1..]));
      assert [bs[0]] + bs[1..] == bs;
    }
  }

  /** Unescaping an escaped component gives back the UTF-8 bytes of the original string. */
  lemma QueryEscapeRoundTrip(s: string)
    ensures QueryUnescape(QueryEscape(s)) == Some(Utf8(s))
  {
    UnescapeEscapeBytes(Utf8(s));
  }
}
