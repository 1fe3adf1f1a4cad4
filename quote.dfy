/**
  `urllib.parse.quote(tag)` with its default `safe='/'`, as `Client._get`
  applies it to the tag before appending it to the URL: each character is
  encoded in UTF-8 and every byte of a character outside the unreserved set
  of section 2.3 of RFC 3986 (and other than `/`) becomes a percent-encoded
  octet `%XX` with upper-case hexadecimal digits (section 2.1 of RFC 3986).

  `Unquote`, percent-decoding followed by UTF-8 decoding, is the inverse
  `Quote` is proved against: it recovers every quoted string.
 */
module UrlQuote {
  import opened Wrappers

  type byte = x: int | 0 <= x < 256

  /** Unreserved characters (section 2.3 of RFC 3986). */
  predicate IsUnreserved(c: char)
  {
    || ('A' <= c <= 'Z') || ('a' <= c <= 'z') || ('0' <= c <= '9')
    || c == '-' || c == '.' || c == '_' || c == '~'
  }

  /** Characters `quote` leaves as they are: the unreserved ones and `/`. */
  predicate IsSafe(c: char)
  {
    IsUnreserved(c) || c == '/'
  }

  /** A Unicode scalar value: what a Dafny `char` may hold. */
  predicate IsScalar(n: int)
  {
    (0 <= n < 0xD800) || (0xE000 <= n < 0x11_0000)
  }

  /** The UTF-8 encoding of one character (section 3 of RFC 3629). */
  function Utf8Char(c: char): (bs: seq<byte>)
    ensures 1 <= |bs| <= 4
    ensures (|bs| == 1) <==> (c as int < 0x80)
  {
    var cp := c as int;
    if cp < 0x80 then [cp]
    else if cp < 0x800 then [0xC0 + cp / 64, 0x80 + cp % 64]
    else if cp < 0x1_0000 then [0xE0 + (cp / 64) / 64, 0x80 + (cp / 64) % 64, 0x80 + cp % 64]
    else [0xF0 + ((cp / 64) / 64) / 64, 0x80 + ((cp / 64) / 64) % 64, 0x80 + (cp / 64) % 64, 0x80 + cp % 64]
  }

  /** The UTF-8 encoding of a string. */
  function Utf8(s: string): seq<byte>
  {
    if s == [] then [] else Utf8Char(s[0]) + Utf8(s[1..])
  }

  /** Upper-case hexadecimal digit of `n`, as `quote` writes it. */
  function HexDigit(n: int): (c: char)
    requires 0 <= n < 16
    ensures IsUnreserved(c) && ('0' <= c <= '9' || 'A' <= c <= 'F')
  {
    if n < 10 then ('0' as int + n) as char else ('A' as int + n - 10) as char
  }

  predicate IsHexDigit(c: char)
  {
    ('0' <= c <= '9') || ('A' <= c <= 'F') || ('a' <= c <= 'f')
  }

  function HexValue(c: char): (n: int)
    requires IsHexDigit(c)
    ensures 0 <= n < 16
  {
    if '0' <= c <= '9' then c as int - '0' as int
    else if 'A' <= c <= 'F' then c as int - 'A' as int + 10
    else c as int - 'a' as int + 10
  }

  /** `%XX` for every byte. */
  function PercentEncode(bs: seq<byte>): (r: string)
    ensures |r| == 3 * |bs|
    ensures forall k :: 0 <= k < |r| ==> IsUnreserved(r[k]) || r[k] == '%'
    ensures forall k :: 0 <= k < |r| ==> (r[k] == '%' <==> k % 3 == 0)
    ensures forall k :: 0 <= k < |r| && k % 3 != 0 ==> '0' <= r[k] <= '9' || 'A' <= r[k] <= 'F'
  {
    if bs == [] then []
    else
      var tail := PercentEncode(bs[1..]);
      var r := ['%', HexDigit(bs[0] / 16), HexDigit(bs[0] % 16)] + tail;
      assert forall k :: 3 <= k < |r| ==> r[k] == tail[k - 3] && k % 3 == (k - 3) % 3;
      r
  }

  /** How `quote` writes one character. */
  function QuoteChar(c: char): string
  {
    if IsSafe(c) then [c] else PercentEncode(Utf8Char(c))
  }

  /** `urllib.parse.quote(s)` with `safe='/'`. */
  function Quote(s: string): (r: string)
    ensures forall k :: 0 <= k < |r| ==> IsSafe(r[k]) || r[k] == '%'
    ensures (forall k :: 0 <= k < |s| ==> IsSafe(s[k])) ==> r == s
  {
    if s == [] then [] else QuoteChar(s[0]) + Quote(s[1..])
  }

  /** Percent-decoding (section 2.1 of RFC 3986) into bytes; `None` on a malformed `%` or a non-ASCII character. */
  function PercentDecode(q: string): Option<seq<byte>>
    decreases |q|
  {
    if q == [] then Some([])
    else if q[0] == '%' then
      if |q| >= 3 && IsHexDigit(q[1]) && IsHexDigit(q[2])
      then Prepend(HexValue(q[1]) * 16 + HexValue(q[2]), PercentDecode(q[3..]))
      else None
    else if q[0] as int < 0x80 then Prepend(q[0] as int, PercentDecode(q[1..]))
    else None
  }

  /** The length of the UTF-8 sequence a lead byte announces, 0 for a byte that cannot lead. */
  function SequenceLength(b: byte): nat
  {
    if b < 0x80 then 1
    else if 0xC0 <= b < 0xE0 then 2
    else if 0xE0 <= b < 0xF0 then 3
    else if 0xF0 <= b < 0xF8 then 4
    else 0
  }

  predicate IsContinuation(b: byte)
  {
    0x80 <= b < 0xC0
  }

  /** The six payload bits of a continuation byte. */
  function Low(b: byte): int
  {
    b as int - 0x80
  }

  /** The code point that a lead byte and its continuation bytes carry. */
  function CodePoint(bs: seq<byte>): int
    requires 1 <= |bs| <= 4
  {
    var b0: int := bs[0];
    if |bs| == 1 then b0
    else if |bs| == 2 then (b0 - 0xC0) * 64 + Low(bs[1])
    else if |bs| == 3 then ((b0 - 0xE0) * 64 + Low(bs[1])) * 64 + Low(bs[2])
    else (((b0 - 0xF0) * 64 + Low(bs[1])) * 64 + Low(bs[2])) * 64 + Low(bs[3])
  }

  /** UTF-8 decoding; `None` when the bytes do not form a sequence of scalar values. */
  function Utf8Decode(bs: seq<byte>): Option<string>
    decreases |bs|
  {
    if bs == [] then Some([])
    else
      var n := SequenceLength(bs[0]);
      if n == 0 || |bs| < n || exists k :: 1 <= k < n && !IsContinuation(bs[k]) then None
      else
        var cp := CodePoint(bs[..n]);
        if IsScalar(cp) then Prepend(cp as char, Utf8Decode(bs[n..])) else None
  }

  /** `urllib.parse.unquote`, restricted to what `Quote` can produce. */
  function Unquote(q: string): Option<string>
  {
    match PercentDecode(q)
    case Some(bs) => Utf8Decode(bs)
    case None => None
  }

  /** Puts the bytes `bs` in front of a decoded sequence. */
  function PrependAll(bs: seq<byte>, o: Option<seq<byte>>): Option<seq<byte>>
  {
    match o
    case Some(v) => Some(bs + v)
    case None => None
  }

  /** Reading a hex digit back gives its value. */
  lemma HexRoundTrip(n: int)
    requires 0 <= n < 16
    ensures IsHexDigit(HexDigit(n)) && HexValue(HexDigit(n)) == n
  {
  }

  /** Percent-decoding undoes percent-encoding, whatever follows. */
  lemma {:induction false} PercentDecodeEncode(bs: seq<byte>, rest: string)
    ensures PercentDecode(PercentEncode(bs) + rest) == PrependAll(bs, PercentDecode(rest))
  {
    if bs != [] {
      var b := bs[0];
      var tail := PercentEncode(bs[1..]) + rest;
      var q := PercentEncode(bs) + rest;
      assert q == ['%', HexDigit(b / 16), HexDigit(b % 16)] + tail;
      assert q[3..] == tail;
      HexRoundTrip(b / 16);
      HexRoundTrip(b % 16);
      PercentDecodeEncode(bs[1..], rest);
      assert [b] + bs[1..] == bs;
      match PercentDecode(rest)
      case Some(v) => assert [b] + (bs[1..] + v) == bs + v;
      case None =>
    } else {
      assert PercentEncode(bs) + rest == rest;
      match PercentDecode(rest)
      case Some(v) => assert bs + v == v;
      case None =>
    }
  }

  /** Percent-decoding a quoted string yields the UTF-8 encoding of the original. */
  lemma {:induction false} PercentDecodeQuote(s: string)
    ensures PercentDecode(Quote(s)) == Some(Utf8(s))
  {
    if s != [] {
      var c := s[0];
      PercentDecodeQuote(s[1..]);
      if IsSafe(c) {
        var q := [c] + Quote(s[1..]);
        assert q[1..] == Quote(s[1..]);
      } else {
        PercentDecodeEncode(Utf8Char(c), Quote(s[1..]));
      }
    }
  }

  /** The bytes `Utf8Char` writes for the characters of each length class. */
  lemma Utf8CharShape(c: char)
    ensures var bs := Utf8Char(c);
      && SequenceLength(bs[0]) == |bs|
      && (forall k :: 1 <= k < |bs| ==> IsContinuation(bs[k]))
      && CodePoint(bs) == c as int
  {
    var cp := c as int;
    var a := cp / 64;
    var b := a / 64;
    assert cp == a * 64 + cp % 64;
    assert a == b * 64 + a % 64;
    assert b == (b / 64) * 64 + b % 64;
  }

  /** Decoding the UTF-8 encoding of `c` in front of more bytes yields `c` first. */
  lemma Utf8DecodeChar(c: char, rest: seq<byte>)
    ensures Utf8Decode(Utf8Char(c) + rest) == Prepend(c, Utf8Decode(rest))
  {
    var bs := Utf8Char(c);
    var all := bs + rest;
    Utf8CharShape(c);
    assert all[..|bs|] == bs;
    assert all[|bs|..] == rest;
    assert forall k :: 1 <= k < |bs| ==> all[k] == bs[k];
  }

  /** UTF-8 decoding undoes UTF-8 encoding. */
  lemma {:induction false} Utf8RoundTrip(s: string)
    ensures Utf8Decode(Utf8(s)) == Some(s)
  {
    if s != [] {
      Utf8DecodeChar(s[0], Utf8(s[1..]));
      Utf8RoundTrip(s[1..]);
      assert [s[0]] + s[1..] == s;
    }
  }

  /** `unquote(quote(s)) == s`. */
  lemma UnquoteQuote(s: string)
    ensures Unquote(Quote(s)) == Some(s)
  {
    PercentDecodeQuote(s);
    Utf8RoundTrip(s);
  }

  /** Distinct strings are quoted differently. */
  lemma QuoteInjective(a: string, b: string)
    ensures Quote(a) == Quote(b) <==> a == b
  {
    UnquoteQuote(a);
    UnquoteQuote(b);
  }

  /** Quoting works character by character. */
  lemma {:induction false} QuoteAppend(a: string, b: string)
    ensures Quote(a + b) == Quote(a) + Quote(b)
  {
    if a != [] {
      assert (a + b)[0] == a[0];
      assert (a + b)[1..] == a[1..] + b;
      QuoteAppend(a[1..], b);
    } else {
      assert a + b == b;
    }
  }

  /** `#` is written as `%23`. */
  lemma QuoteOfHash()
    ensures Quote("#") == "%23"
  {
    assert Utf8Char('#') == [0x23];
    assert HexDigit(2) == '2' && HexDigit(3) == '3';
    assert PercentEncode([0x23]) == ['%', '2', '3'] + PercentEncode([]);
    assert Quote("#") == QuoteChar('#') + Quote([]);
  }

  /** An inner `#` is written as `%23`. */
  lemma QuoteHash(a: string, b: string)
    ensures Quote(a + "#" + b) == Quote(a) + "%23" + Quote(b)
  {
    QuoteAppend(a + "#", b);
    QuoteAppend(a, "#");
    QuoteOfHash();
  }
}
