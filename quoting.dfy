/**
 * Percent-encoding of path segments as `urllib.parse.quote` does it with its
 * default `safe="/"`, and `quote_segments`, which joins the encoded segments
 * with `/` (seed_all_grades.py and seed_grade10.py).
 *
 * A character is encoded as UTF-8 and every byte outside the unreserved set
 * of section 2.3 of RFC 3986 (ASCII letters, digits, `-`, `.`, `_`, `~`),
 * other than `/`, is written as `%` followed by two upper-case hexadecimal
 * digits (section 2.1 of RFC 3986). A strict UTF-8 decoder and a
 * percent-decoder are the partners the round-trip lemmas use.
 */
module Quoting {
  import opened Wrappers
  import Names

  type byte = b: int | 0 <= b < 256

  // ---------------------------------------------------------------------
  // UTF-8
  // ---------------------------------------------------------------------

  /** The UTF-8 encoding of one Unicode scalar value (one to four bytes). */
  function Utf8(c: char): seq<byte> {
    var n := c as int;
    if n < 0x80 then [n]
    else if n < 0x800 then [0xC0 + n / 0x40, 0x80 + n % 0x40]
    else if n < 0x1_0000 then [0xE0 + n / 0x1000, 0x80 + n / 0x40 % 0x40, 0x80 + n % 0x40]
    else [0xF0 + n / 0x4_0000, 0x80 + n / 0x1000 % 0x40, 0x80 + n / 0x40 % 0x40, 0x80 + n % 0x40]
  }

  function Utf8String(s: string): seq<byte> {
    if s == [] then [] else Utf8(s[0]) + Utf8String(s[1..])
  }

  lemma Utf8One(c: char)
    ensures Utf8String([c]) == Utf8(c)
  {
    assert [c][1..] == [];
  }

  predicate IsCont(b: byte) { 0x80 <= b < 0xC0 }

  function Cons<T>(x: T, r: Option<seq<T>>): Option<seq<T>> {
    if r.Some? then Some([x] + r.value) else None
  }

  /** A strict UTF-8 decoder: no overlong forms, no surrogates, nothing
      beyond U+10FFFF. */
  function Utf8Decode(bs: seq<byte>): Option<string>
    decreases |bs|
  {
    if bs == [] then Some([])
    else if bs[0] < 0x80 then Cons(bs[0] as char, Utf8Decode(bs[1..]))
    else if 0xC0 <= bs[0] < 0xE0 && |bs| >= 2 && IsCont(bs[1]) then
      var n := (bs[0] as int - 0xC0) * 0x40 + (bs[1] as int - 0x80);
      if n < 0x80 then None else Cons(n as char, Utf8Decode(bs[2..]))
    else if 0xE0 <= bs[0] < 0xF0 && |bs| >= 3 && IsCont(bs[1]) && IsCont(bs[2]) then
      var n := (bs[0] as int - 0xE0) * 0x1000 + (bs[1] as int - 0x80) * 0x40 + (bs[2] as int - 0x80);
      if n < 0x800 || 0xD800 <= n < 0xE000 then None else Cons(n as char, Utf8Decode(bs[3..]))
    else if 0xF0 <= bs[0] < 0xF8 && |bs| >= 4 && IsCont(bs[1]) && IsCont(bs[2]) && IsCont(bs[3]) then
      var n := (bs[0] as int - 0xF0) * 0x4_0000 + (bs[1] as int - 0x80) * 0x1000
        + (bs[2] as int - 0x80) * 0x40 + (bs[3] as int - 0x80);
      if n < 0x1_0000 || n >= 0x11_0000 then None else Cons(n as char, Utf8Decode(bs[4..]))
    else None
  }

  lemma Utf8DecodeTwo(c: char, rest: seq<byte>)
    requires 0x80 <= c as int < 0x800
    ensures Utf8Decode(Utf8(c) + rest) == Cons(c, Utf8Decode(rest))
  {
    var n := c as int;
    var bs := Utf8(c) + rest;
    assert bs[0] == 0xC0 + n / 0x40 && bs[1] == 0x80 + n % 0x40;
    assert bs[2..] == rest;
  }

  lemma Utf8DecodeThree(c: char, rest: seq<byte>)
    requires 0x800 <= c as int < 0x1_0000
    ensures Utf8Decode(Utf8(c) + rest) == Cons(c, Utf8Decode(rest))
  {
    var n := c as int;
    var bs := Utf8(c) + rest;
    assert bs[0] == 0xE0 + n / 0x1000 && bs[1] == 0x80 + n / 0x40 % 0x40 && bs[2] == 0x80 + n % 0x40;
    assert n / 0x1000 * 0x1000 + n / 0x40 % 0x40 * 0x40 + n % 0x40 == n;
    assert bs[3..] == rest;
  }

  lemma Utf8DecodeFour(c: char, rest: seq<byte>)
    requires 0x1_0000 <= c as int
    ensures Utf8Decode(Utf8(c) + rest) == Cons(c, Utf8Decode(rest))
  {
    var n := c as int;
    var bs := Utf8(c) + rest;
    assert bs[0] == 0xF0 + n / 0x4_0000 && bs[1] == 0x80 + n / 0x1000 % 0x40;
    assert bs[2] == 0x80 + n / 0x40 % 0x40 && bs[3] == 0x80 + n % 0x40;
    FourDigits(n);
    assert bs[4..] == rest;
  }

  /** A value below U+110000 written in base 64 with four digits. */
  lemma FourDigits(n: nat)
    ensures n / 0x4_0000 * 0x4_0000 + n / 0x1000 % 0x40 * 0x1000 + n / 0x40 % 0x40 * 0x40 + n % 0x40 == n
  {
    assert n / 0x40 / 0x40 == n / 0x1000;
    assert n / 0x1000 / 0x40 == n / 0x4_0000;
  }

  /** Decoding undoes the encoding of one character, whatever follows. */
  lemma Utf8DecodeChar(c: char, rest: seq<byte>)
    ensures Utf8Decode(Utf8(c) + rest) == Cons(c, Utf8Decode(rest))
  {
    var n := c as int;
    if n < 0x80 {
      assert (Utf8(c) + rest)[1..] == rest;
    } else if n < 0x800 {
      Utf8DecodeTwo(c, rest);
    } else if n < 0x1_0000 {
      Utf8DecodeThree(c, rest);
    } else {
      Utf8DecodeFour(c, rest);
    }
  }

  /** UTF-8 round trip: decoding the encoding of a string gives it back. */
  lemma {:induction false} Utf8RoundTrip(s: string)
    ensures Utf8Decode(Utf8String(s)) == Some(s)
  {
    if s != [] {
      Utf8RoundTrip(s[1..]);
      Utf8DecodeChar(s[0], Utf8String(s[1..]));
      assert [s[0]] + s[1..] == s;
    }
  }

  // ---------------------------------------------------------------------
  // quote
  // ---------------------------------------------------------------------

  /** Unreserved characters (section 2.3 of RFC 3986), Python's
      `_ALWAYS_SAFE`. */
  predicate IsUnreserved(c: char) {
    Names.IsAlnum(c) || c == '-' || c == '.' || c == '_' || c == '~'
  }

  /** What `quote` leaves as it is: the unreserved characters and `/`. */
  predicate IsSafe(c: char) { IsUnreserved(c) || c == '/' }

  predicate IsHexDigit(c: char) { '0' <= c <= '9' || 'A' <= c <= 'F' }

  /** The upper-case hexadecimal digit of a value below 16. */
  function HexDigit(d: nat): char
    requires d < 16
  {
    if d < 10 then ('0' as int + d) as char else ('A' as int + d - 10) as char
  }

  /** `%XX` for one byte, upper-case hexadecimal. */
  function PercentByte(b: byte): string {
    ['%', HexDigit(b / 16), HexDigit(b % 16)]
  }

  function PercentBytes(bs: seq<byte>): string {
    if bs == [] then [] else PercentByte(bs[0]) + PercentBytes(bs[1..])
  }

  /** One character of `quote`: kept when safe, otherwise its UTF-8
      encoding, byte by byte. */
  function QuoteChar(c: char): string {
    if IsSafe(c) then [c] else PercentBytes(Utf8String([c]))
  }

  /** `urllib.parse.quote(s)` with the default `safe="/"`. */
  function Quote(s: string): string {
    if s == [] then [] else QuoteChar(s[0]) + Quote(s[1..])
  }

  /** Joins strings with `/` (`"/".join`). */
  function JoinSlash(qs: seq<string>): string {
    if qs == [] then [] else if |qs| == 1 then qs[0] else qs[0] + "/" + JoinSlash(qs[1..])
  }

  function QuoteAll(segs: seq<string>): (qs: seq<string>)
    ensures |qs| == |segs| && forall i :: 0 <= i < |segs| ==> qs[i] == Quote(segs[i])
  {
    if segs == [] then [] else [Quote(segs[0])] + QuoteAll(segs[1..])
  }

  /** `quote_segments(*segs)`: every segment quoted, joined by `/`. */
  function QuoteSegments(segs: seq<string>): string {
    JoinSlash(QuoteAll(segs))
  }

  /** The content URL the scanners store: `"/static/" + quote_segments(...)`. */
  function Locator(segs: seq<string>): string {
    "/static/" + QuoteSegments(segs)
  }

  /** `quote` works character by character. */
  lemma {:induction false} QuoteAppend(a: string, b: string)
    ensures Quote(a + b) == Quote(a) + Quote(b)
  {
    if a == [] {
      assert a + b == b;
    } else {
      assert (a + b)[1..] == a[1..] + b;
      QuoteAppend(a[1..], b);
    }
  }

  /** A string of unreserved characters (and `/`) is left unchanged. */
  lemma {:induction false} QuoteSafeIdentity(s: string)
    requires forall i :: 0 <= i < |s| ==> IsSafe(s[i])
    ensures Quote(s) == s
  {
    if s != [] {
      QuoteSafeIdentity(s[1..]);
    }
  }

  /** A space becomes `%20`. */
  lemma QuoteSpace()
    ensures Quote(" ") == "%20"
  {
    assert Quote(" ") == QuoteChar(' ') + Quote("");
  }

  /** What `quote` writes: safe characters, and `%` followed by two
      upper-case hexadecimal digits. */
  predicate IsQuoted(q: string)
    decreases |q|
  {
    if q == [] then true
    else if q[0] == '%' then |q| >= 3 && IsHexDigit(q[1]) && IsHexDigit(q[2]) && IsQuoted(q[3..])
    else IsSafe(q[0]) && IsQuoted(q[1..])
  }

  lemma {:induction false} IsQuotedAppend(a: string, b: string)
    requires IsQuoted(a) && IsQuoted(b)
    ensures IsQuoted(a + b)
    decreases |a|
  {
    if a == [] {
      assert a + b == b;
    } else {
      assert (a + b)[0] == a[0];
      if a[0] == '%' {
        assert (a + b)[1] == a[1] && (a + b)[2] == a[2];
        assert (a + b)[3..] == a[3..] + b;
        IsQuotedAppend(a[3..], b);
      } else {
        assert (a + b)[1..] == a[1..] + b;
        IsQuotedAppend(a[1..], b);
      }
    }
  }

  lemma {:induction false} PercentBytesQuoted(bs: seq<byte>)
    ensures IsQuoted(PercentBytes(bs))
  {
    if bs != [] {
      var p := PercentByte(bs[0]);
      assert p[3..] == [];
      PercentBytesQuoted(bs[1..]);
      IsQuotedAppend(p, PercentBytes(bs[1..]));
    }
  }

  /** The output alphabet of `quote`. */
  lemma {:induction false} QuoteIsQuoted(s: string)
    ensures IsQuoted(Quote(s))
  {
    if s != [] {
      QuoteIsQuoted(s[1..]);
      if IsSafe(s[0]) {
        assert IsQuoted([s[0]]) by { assert [s[0]][1..] == []; }
      } else {
        Utf8One(s[0]);
        PercentBytesQuoted(Utf8(s[0]));
      }
      IsQuotedAppend(QuoteChar(s[0]), Quote(s[1..]));
    }
  }

  // ---------------------------------------------------------------------
  // Decoding: the partner of quote
  // ---------------------------------------------------------------------

  function HexValue(c: char): nat {
    if '0' <= c <= '9' then c as int - '0' as int
    else if 'A' <= c <= 'F' then c as int - 'A' as int + 10
    else 0
  }

  /** Percent-decoding to bytes; `None` for a malformed escape or a
      non-ASCII character. */
  function PercentDecode(q: string): Option<seq<byte>>
    decreases |q|
  {
    if q == [] then Some([])
    else if q[0] == '%' then
      if |q| >= 3 && IsHexDigit(q[1]) && IsHexDigit(q[2])
      then Cons(16 * HexValue(q[1]) + HexValue(q[2]), PercentDecode(q[3..]))
      else None
    else if q[0] as int < 0x80 then Cons(q[0] as int, PercentDecode(q[1..]))
    else None
  }

  /** `urllib.parse.unquote` for strict input. */
  function Unquote(q: string): Option<string> {
    var bs := PercentDecode(q);
    if bs.Some? then Utf8Decode(bs.value) else None
  }

  function Prepend<T>(xs: seq<T>, r: Option<seq<T>>): Option<seq<T>> {
    if r.Some? then Some(xs + r.value) else None
  }

  lemma PercentByteDecode(b: byte, rest: string)
    ensures PercentDecode(PercentByte(b) + rest) == Cons(b, PercentDecode(rest))
  {
    var q := PercentByte(b) + rest;
    assert q[0] == '%' && q[1] == HexDigit(b / 16) && q[2] == HexDigit(b % 16);
    assert q[3..] == rest;
  }

  lemma {:induction false} PercentBytesDecode(bs: seq<byte>, rest: string)
    ensures PercentDecode(PercentBytes(bs) + rest) == Prepend(bs, PercentDecode(rest))
  {
    if bs == [] {
      assert PercentBytes(bs) + rest == rest;
      var r := PercentDecode(rest);
      if r.Some? {
        assert bs + r.value == r.value;
      }
    } else {
      assert PercentBytes(bs) + rest == PercentByte(bs[0]) + (PercentBytes(bs[1..]) + rest);
      PercentByteDecode(bs[0], PercentBytes(bs[1..]) + rest);
      PercentBytesDecode(bs[1..], rest);
      var r := PercentDecode(rest);
      if r.Some? {
        assert [bs[0]] + (bs[1..] + r.value) == bs + r.value;
      }
    }
  }

  lemma {:induction false} PercentDecodeQuote(s: string)
    ensures PercentDecode(Quote(s)) == Some(Utf8String(s))
  {
    if s != [] {
      var c := s[0];
      PercentDecodeQuote(s[1..]);
      if IsSafe(c) {
        assert Quote(s) == [c] + Quote(s[1..]);
        assert (Quote(s))[1..] == Quote(s[1..]);
        assert Utf8(c) == [c as int];
      } else {
        Utf8One(c);
        PercentBytesDecode(Utf8(c), Quote(s[1..]));
      }
    }
  }

  /** Round trip: unquoting the quoted string gives it back. */
  lemma UnquoteQuote(s: string)
    ensures Unquote(Quote(s)) == Some(s)
  {
    PercentDecodeQuote(s);
    Utf8RoundTrip(s);
  }

  // ---------------------------------------------------------------------
  // Splitting a locator back into its segments
  // ---------------------------------------------------------------------

  predicate NoSlash(s: string) { forall i :: 0 <= i < |s| ==> s[i] != '/' }

  /** Index of the first `/`, or `|s|`. */
  function SlashIndex(s: string): (i: nat)
    ensures i <= |s| && NoSlash(s[..i]) && (i < |s| ==> s[i] == '/')
    decreases |s|
  {
    if s == [] || s[0] == '/' then 0
    else
      var j := SlashIndex(s[1..]);
      assert s[..1 + j] == [s[0]] + s[1..][..j];
      1 + j
  }

  /** `s.split("/")`. */
  function Split(s: string): (parts: seq<string>)
    ensures |parts| >= 1
    decreases |s|
  {
    var i := SlashIndex(s);
    if i == |s| then [s] else [s[..i]] + Split(s[i + 1..])
  }

  lemma NoSlashIndex(a: string, b: string)
    requires NoSlash(a)
    ensures SlashIndex(a + "/" + b) == |a|
    ensures SlashIndex(a) == |a|
    decreases |a|
  {
    if a != [] {
      assert (a + "/" + b)[1..] == a[1..] + "/" + b;
      NoSlashIndex(a[1..], b);
    }
  }

  lemma {:induction false} SplitJoin(qs: seq<string>)
    requires |qs| >= 1 && forall i :: 0 <= i < |qs| ==> NoSlash(qs[i])
    ensures Split(JoinSlash(qs)) == qs
  {
    if |qs| == 1 {
      NoSlashIndex(qs[0], "");
    } else {
      var rest := JoinSlash(qs[1..]);
      NoSlashIndex(qs[0], rest);
      var j := qs[0] + "/" + rest;
      assert j[..|qs[0]|] == qs[0];
      assert j[|qs[0]| + 1..] == rest;
      SplitJoin(qs[1..]);
    }
  }

  /** `quote` keeps a segment free of `/` when it had none. */
  lemma {:induction false} QuoteNoSlash(s: string)
    requires NoSlash(s)
    ensures NoSlash(Quote(s))
  {
    if s != [] {
      QuoteNoSlash(s[1..]);
      if !IsSafe(s[0]) {
        Utf8One(s[0]);
        PercentBytesNoSlash(Utf8(s[0]));
      }
    }
  }

  lemma {:induction false} PercentBytesNoSlash(bs: seq<byte>)
    ensures NoSlash(PercentBytes(bs))
  {
    if bs != [] {
      PercentBytesNoSlash(bs[1..]);
    }
  }

  function UnquoteAll(qs: seq<string>): Option<seq<string>> {
    if qs == [] then Some([])
    else
      var h := Unquote(qs[0]);
      if h.Some? then Cons(h.value, UnquoteAll(qs[1..])) else None
  }

  /** Reads a content URL back into its raw segments. */
  function ParseLocator(url: string): Option<seq<string>> {
    if |url| >= 8 && url[..8] == "/static/" then UnquoteAll(Split(url[8..])) else None
  }

  lemma {:induction false} UnquoteAllQuoteAll(segs: seq<string>)
    ensures UnquoteAll(QuoteAll(segs)) == Some(segs)
  {
    if segs != [] {
      UnquoteQuote(segs[0]);
      UnquoteAllQuoteAll(segs[1..]);
      assert [segs[0]] + segs[1..] == segs;
    }
  }

  /** `quote_segments` yields one encoded piece per segment, joined by `/`:
      the stored URL can be read back into exactly the segments it was built
      from, as long as no segment holds a `/` (a file or folder name never
      does). */
  lemma LocatorRoundTrip(segs: seq<string>)
    requires |segs| >= 1 && forall i :: 0 <= i < |segs| ==> NoSlash(segs[i])
    ensures Split(QuoteSegments(segs)) == QuoteAll(segs)
    ensures ParseLocator(Locator(segs)) == Some(segs)
  {
    var qs := QuoteAll(segs);
    forall i | 0 <= i < |qs| ensures NoSlash(qs[i]) {
      QuoteNoSlash(segs[i]);
    }
    SplitJoin(qs);
    assert Locator(segs)[8..] == QuoteSegments(segs);
    UnquoteAllQuoteAll(segs);
  }
}
