/** Percent-encoding as `urllib.parse.quote(s, safe="")` does it: the text is
    encoded as UTF-8 and every byte outside the unreserved set of RFC 3986
    section 2.3 (letters, digits, `-`, `.`, `_`, `~`) is written as `%XX` with
    upper-case hexadecimal digits (RFC 3986 section 2.1). `Unquote` is the
    decoder used to read such a parameter back. */
module Percent {

  import opened Strings
  import opened Utf8

  predicate IsUnreserved(c: char) {
    ('A' <= c <= 'Z') || ('a' <= c <= 'z') || ('0' <= c <= '9') || c == '-' || c == '.' || c == '_' || c == '~'
  }

  function HexDigit(d: int): (c: char)
    requires 0 <= d < 16
    ensures IsUnreserved(c) && IsHex(c) && HexValue(c) == d
  {
    if d < 10 then ('0' as int + d) as char else ('A' as int + d - 10) as char
  }

  predicate IsHex(c: char) {
    ('0' <= c <= '9') || ('A' <= c <= 'F') || ('a' <= c <= 'f')
  }

  function HexValue(c: char): (d: int)
    requires IsHex(c)
    ensures 0 <= d < 16
  {
    if '0' <= c <= '9' then c as int - '0' as int
    else if 'A' <= c <= 'F' then c as int - 'A' as int + 10
    else c as int - 'a' as int + 10
  }

  /** How one byte of the UTF-8 form is written. */
  function QuoteByte(b: Byte): (q: string)
    ensures forall k :: 0 <= k < |q| ==> IsUnreserved(q[k]) || q[k] == '%'
  {
    if b < 0x80 && IsUnreserved(b as char) then [b as char]
    else ['%', HexDigit(b / 16), HexDigit(b % 16)]
  }

  function QuoteBytes(bs: seq<Byte>): (q: string)
    ensures forall k :: 0 <= k < |q| ==> IsUnreserved(q[k]) || q[k] == '%'
  {
    if bs == [] then [] else QuoteByte(bs[0]) + QuoteBytes(bs[1..])
  }

  /** `quote(s, safe="")`. */
  function Quote(s: string): (q: string)
    ensures forall k :: 0 <= k < |q| ==> IsUnreserved(q[k]) || q[k] == '%'
  {
    QuoteBytes(Encode(s))
  }

  /** Reads `%XX` escapes as bytes and any other character as its UTF-8
      bytes; None on a `%` not followed by two hexadecimal digits. */
  function PercentDecode(t: string): Option<seq<Byte>> {
    if t == [] then Some([])
    else if t[0] == '%' then
      if |t| >= 3 && IsHex(t[1]) && IsHex(t[2]) then
        match PercentDecode(t[3..])
        case None => None
        case Some(rest) => Some([HexValue(t[1]) * 16 + HexValue(t[2])] + rest)
      else None
    else
      match PercentDecode(t[1..])
      case None => None
      case Some(rest) => Some(EncodeChar(t[0]) + rest)
  }

  /** Percent-decoding followed by strict UTF-8 decoding. */
  function Unquote(t: string): Option<string> {
    match PercentDecode(t)
    case None => None
    case Some(bs) => Decode(bs)
  }

  lemma {:induction false} PercentDecodeQuoteBytes(bs: seq<Byte>)
    ensures PercentDecode(QuoteBytes(bs)) == Some(bs)
  {
    if bs != [] {
      var b := bs[0];
      var q := QuoteByte(b);
      var t := q + QuoteBytes(bs[1..]);
      PercentDecodeQuoteBytes(bs[1..]);
      if b < 0x80 && IsUnreserved(b as char) {
        assert t[0] == b as char && t[1..] == QuoteBytes(bs[1..]);
        assert EncodeChar(b as char) == [b];
      } else {
        assert t[0] == '%' && t[1] == HexDigit(b / 16) && t[2] == HexDigit(b % 16);
        assert t[3..] == QuoteBytes(bs[1..]);
      }
      assert [b] + bs[1..] == bs;
    }
  }

  /** Round trip: the decoded parameter is exactly the original text. */
  lemma UnquoteQuote(s: string)
    ensures Unquote(Quote(s)) == Some(s)
  {
    PercentDecodeQuoteBytes(Encode(s));
    DecodeEncode(s);
  }

  /** Text made only of unreserved characters is left as it is. */
  lemma {:induction false} QuoteUnreserved(s: string)
    requires forall k :: 0 <= k < |s| ==> IsUnreserved(s[k])
    ensures Quote(s) == s
  {
    if s != [] {
      QuoteUnreserved(s[1..]);
      assert Quote(s) == QuoteByte(s[0] as int) + Quote(s[1..]);
      assert [s[0]] + s[1..] == s;
    }
  }

  /** Distinct texts give distinct encodings. */
  lemma QuoteInjective(s: string, t: string)
    requires Quote(s) == Quote(t)
    ensures s == t
  {
    UnquoteQuote(s);
    UnquoteQuote(t);
  }
}
