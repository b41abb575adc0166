/**
 * Percent-encoding as JavaScript's `encodeURIComponent` performs it (the
 * unreserved characters of section 2.3 of RFC 3986 plus `!*'()` pass through;
 * every other character becomes the `%XX` escapes of its UTF-8 bytes, as
 * section 2.1 of RFC 3986 describes), the matching byte-level decoding, and
 * the splitting of a URL's query into name/value pairs.
 */
module Uri {
  import opened Types

  /** An octet. */
  type Byte = x: int | 0 <= x < 256

  /** Characters `encodeURIComponent` leaves as they are. */
  predicate Unreserved(ch: char) {
    || ('A' <= ch <= 'Z')
    || ('a' <= ch <= 'z')
    || ('0' <= ch <= '9')
    || ch == '-' || ch == '_' || ch == '.' || ch == '!' || ch == '~'
    || ch == '*' || ch == '\'' || ch == '(' || ch == ')'
  }

  /** The UTF-8 encoding of one Unicode scalar value. */
  function Utf8(ch: char): (bs: seq<Byte>)
    ensures 1 <= |bs| <= 4
    ensures |bs| == 1 <==> ch as int < 0x80
    ensures |bs| == 1 ==> bs[0] == ch as int
    ensures |bs| == 2 <==> 0x80 <= ch as int < 0x800
    ensures |bs| == 3 <==> 0x800 <= ch as int < 0x10000
    ensures |bs| == 2 ==> 0xC0 <= bs[0] < 0xE0
    ensures |bs| == 3 ==> 0xE0 <= bs[0] < 0xF0
    ensures |bs| == 4 ==> 0xF0 <= bs[0] < 0xF8
    ensures forall i :: 1 <= i < |bs| ==> 0x80 <= bs[i] < 0xC0
  {
    var cp := ch as int;
    if cp < 0x80 then [cp]
    else if cp < 0x800 then [0xC0 + cp / 0x40, 0x80 + cp % 0x40]
    else if cp < 0x10000 then [0xE0 + cp / 0x1000, 0x80 + (cp / 0x40) % 0x40, 0x80 + cp % 0x40]
    else [0xF0 + cp / 0x40000, 0x80 + (cp / 0x1000) % 0x40, 0x80 + (cp / 0x40) % 0x40, 0x80 + cp % 0x40]
  }

  /** Reference decoder: the code point a well-formed one-to-four byte UTF-8
      sequence stands for, from the payload bits of its lead and continuation
      bytes. */
  function ScalarOf(bs: seq<Byte>): int
    requires 1 <= |bs| <= 4
  {
    var b0 := bs[0] as int;
    if |bs| == 1 then b0
    else if |bs| == 2 then (b0 - 0xC0) * 0x40 + (bs[1] as int - 0x80)
    else if |bs| == 3 then (b0 - 0xE0) * 0x1000 + (bs[1] as int - 0x80) * 0x40 + (bs[2] as int - 0x80)
    else (b0 - 0xF0) * 0x40000 + (bs[1] as int - 0x80) * 0x1000 + (bs[2] as int - 0x80) * 0x40 + (bs[3] as int - 0x80)
  }

  /** The encoding of a character decodes back to that character. */
  lemma Utf8Decodes(ch: char)
    ensures ScalarOf(Utf8(ch)) == ch as int
  {
    var cp := ch as int;
    var bs := Utf8(ch);
    if 0x80 <= cp < 0x800 {
      assert bs == [0xC0 + cp / 0x40, 0x80 + cp % 0x40];
      Split64(cp);
    } else if 0x800 <= cp < 0x10000 {
      assert bs == [0xE0 + cp / 0x1000, 0x80 + (cp / 0x40) % 0x40, 0x80 + cp % 0x40];
      Split64(cp);
      Split64(cp / 0x40);
      assert cp / 0x40 / 0x40 == cp / 0x1000;
    } else if 0x10000 <= cp {
      assert bs == [0xF0 + cp / 0x40000, 0x80 + (cp / 0x1000) % 0x40, 0x80 + (cp / 0x40) % 0x40, 0x80 + cp % 0x40];
      Split64(cp);
      Split64(cp / 0x40);
      Split64(cp / 0x1000);
      assert cp / 0x40 / 0x40 == cp / 0x1000;
      assert cp / 0x1000 / 0x40 == cp / 0x40000;
    }
  }

  /** A number is its sixty-fours and its remainder. */
  lemma Split64(n: int)
    requires n >= 0
    ensures n == (n / 0x40) * 0x40 + n % 0x40
  {
  }

  /** The UTF-8 encoding of a string. */
  function Utf8String(s: string): seq<Byte>
    decreases |s|
  {
    if s == [] then [] else Utf8(s[0]) + Utf8String(s[1..])
  }

  /** The upper-case hexadecimal digit of a value below 16. */
  function HexDigit(n: int): (ch: char)
    requires 0 <= n < 16
    ensures ('0' <= ch <= '9') || ('A' <= ch <= 'F')
  {
    if n < 10 then ('0' as int + n) as char else ('A' as int + n - 10) as char
  }

  /** The `%XX` escape of one byte. */
  function Escape(b: Byte): (r: string)
    ensures |r| == 3 && r[0] == '%' && Unreserved(r[1]) && Unreserved(r[2])
  {
    ['%', HexDigit(b / 16), HexDigit(b % 16)]
  }

  /** The escapes of a byte sequence, concatenated. */
  function EscapeAll(bs: seq<Byte>): (r: string)
    ensures |r| == 3 * |bs|
    ensures forall i :: 0 <= i < |r| ==> Encoded(r[i])
    ensures |bs| > 0 ==> r[0] == '%'
    decreases |bs|
  {
    if bs == [] then [] else Escape(bs[0]) + EscapeAll(bs[1..])
  }

  /** Characters that can appear in `encodeURIComponent`'s output. */
  predicate Encoded(ch: char) {
    Unreserved(ch) || ch == '%'
  }

  /** One character as `encodeURIComponent` writes it. */
  function EncodeChar(ch: char): (r: string)
    ensures forall i :: 0 <= i < |r| ==> Encoded(r[i])
    ensures Unreserved(ch) ==> r == [ch]
    ensures !Unreserved(ch) ==> |r| == 3 * |Utf8(ch)| && r[0] == '%'
  {
    if Unreserved(ch) then [ch] else EscapeAll(Utf8(ch))
  }

  /** `encodeURIComponent(s)`. */
  function EncodeUriComponent(s: string): (r: string)
    ensures forall i :: 0 <= i < |r| ==> Encoded(r[i])
    ensures |r| >= |s|
    ensures (forall i :: 0 <= i < |s| ==> Unreserved(s[i])) ==> r == s
    ensures (exists i :: 0 <= i < |s| && !Unreserved(s[i])) ==> |r| > |s|
    decreases |s|
  {
    if s == [] then [] else EncodeChar(s[0]) + EncodeUriComponent(s[1..])
  }

  /** Text comes out unchanged exactly when all of it is unreserved. */
  lemma EncodeIdentityIffUnreserved(s: string)
    ensures EncodeUriComponent(s) == s <==> forall i :: 0 <= i < |s| ==> Unreserved(s[i])
  {
    if exists i :: 0 <= i < |s| && !Unreserved(s[i]) {
      assert |EncodeUriComponent(s)| > |s|;
    }
  }

  /** Encoding works piece by piece. */
  lemma {:induction false} EncodeConcat(a: string, b: string)
    ensures EncodeUriComponent(a + b) == EncodeUriComponent(a) + EncodeUriComponent(b)
    decreases |a|
  {
    if a != [] {
      assert (a + b)[0] == a[0] && (a + b)[1..] == a[1..] + b;
      EncodeConcat(a[1..], b);
    } else {
      assert a + b == b;
    }
  }

  /** None of the characters that delimit a URL's query, its parameters or its
      fragment, nor the path separator, survives encoding. */
  lemma EncodedHasNoDelimiters(s: string)
    ensures forall i :: 0 <= i < |EncodeUriComponent(s)| ==>
              EncodeUriComponent(s)[i] !in {'&', '=', '?', '/', '#', '+', ' '}
  {
  }

  /** The value of a hexadecimal digit, either case. */
  function HexValue(ch: char): Option<int> {
    if '0' <= ch <= '9' then Some(ch as int - '0' as int)
    else if 'A' <= ch <= 'F' then Some(ch as int - 'A' as int + 10)
    else if 'a' <= ch <= 'f' then Some(ch as int - 'a' as int + 10)
    else None
  }

  /** What a server recovers from a query value: each `%XX` is one byte, every
      other character stands for its own UTF-8 bytes; `None` for a malformed
      escape. */
  function PercentDecode(s: string): Option<seq<Byte>>
    decreases |s|
  {
    if s == [] then Some([])
    else if s[0] == '%' then
      if |s| < 3 || HexValue(s[1]).None? || HexValue(s[2]).None? then None
      else
        match PercentDecode(s[3..])
        case None => None
        case Some(rest) => Some([HexValue(s[1]).value * 16 + HexValue(s[2]).value] + rest)
    else
      match PercentDecode(s[1..])
      case None => None
      case Some(rest) => Some(Utf8(s[0]) + rest)
  }

  lemma HexRoundTrip(n: int)
    requires 0 <= n < 16
    ensures HexValue(HexDigit(n)) == Some(n)
  {
  }

  /** Decoding escapes then more text yields the escaped bytes then the rest. */
  lemma {:induction false} DecodeEscapes(bs: seq<Byte>, rest: string)
    ensures PercentDecode(EscapeAll(bs) + rest) ==
              (match PercentDecode(rest) case None => None case Some(t) => Some(bs + t))
    decreases |bs|
  {
    if bs != [] {
      var b := bs[0];
      HexRoundTrip(b / 16);
      HexRoundTrip(b % 16);
      var s := EscapeAll(bs) + rest;
      assert s == Escape(b) + (EscapeAll(bs[1..]) + rest);
      assert s[0] == '%' && s[1] == HexDigit(b / 16) && s[2] == HexDigit(b % 16);
      assert s[3..] == EscapeAll(bs[1..]) + rest;
      assert (b / 16) * 16 + b % 16 == b;
      DecodeEscapes(bs[1..], rest);
      match PercentDecode(rest)
      case None =>
      case Some(t) =>
        assert [b] + (bs[1..] + t) == bs + t;
    } else {
      assert EscapeAll(bs) + rest == rest;
      match PercentDecode(rest)
      case None =>
      case Some(t) =>
        assert bs + t == t;
    }
  }

  /** Decoding inverts `encodeURIComponent`: the server recovers exactly the
      UTF-8 bytes of the original string. */
  lemma {:induction false} DecodeInvertsEncode(s: string)
    ensures PercentDecode(EncodeUriComponent(s)) == Some(Utf8String(s))
    decreases |s|
  {
    if s != [] {
      var rest := EncodeUriComponent(s[1..]);
      DecodeInvertsEncode(s[1..]);
      if Unreserved(s[0]) {
        assert EncodeUriComponent(s) == [s[0]] + rest;
        assert (EncodeUriComponent(s))[1..] == rest;
      } else {
        DecodeEscapes(Utf8(s[0]), rest);
      }
    }
  }

  // ---------------------------------------------------------------------------
  // Query strings
  // ---------------------------------------------------------------------------

  /** Position of the first `c` in `s`, or `|s|` when there is none. */
  function IndexOf(s: string, c: char): (i: nat)
    ensures i <= |s|
    ensures i < |s| ==> s[i] == c
    ensures forall j :: 0 <= j < i ==> s[j] != c
    decreases |s|
  {
    if s == [] then 0 else if s[0] == c then 0 else 1 + IndexOf(s[1..], c)
  }

  /** The pieces of `s` between occurrences of `sep` (`s.split(sep)`). */
  function SplitOn(s: string, sep: char): (parts: seq<string>)
    ensures |parts| >= 1
    ensures forall k :: 0 <= k < |parts| ==> sep !in parts[k]
    decreases |s|
  {
    var i := IndexOf(s, sep);
    if i == |s| then [s] else [s[..i]] + SplitOn(s[i + 1..], sep)
  }

  /** A URL's query: the text after the first `?` and before any `#`. */
  function QueryOf(url: string): string {
    var q := IndexOf(url, '?');
    var afterQ := if q < |url| then url[q + 1..] else "";
    afterQ[..IndexOf(afterQ, '#')]
  }

  /** One `name=value` pair, split at its first `=`. */
  function Param(p: string): (string, string) {
    var e := IndexOf(p, '=');
    if e < |p| then (p[..e], p[e + 1..]) else (p, "")
  }

  /** The query's parameters, in order. */
  function QueryParams(url: string): seq<(string, string)> {
    var parts := SplitOn(QueryOf(url), '&');
    seq(|parts|, k requires 0 <= k < |parts| => Param(parts[k]))
  }

  /** The first `c` of a text that has none before a given `c`. */
  lemma IndexOfAfterPrefix(a: string, c: char, b: string)
    requires c !in a
    ensures IndexOf(a + [c] + b, c) == |a|
  {
    var s := a + [c] + b;
    assert s[|a|] == c;
  }

  /** A text without `c` is found to have none. */
  lemma IndexOfAbsent(a: string, c: char)
    requires c !in a
    ensures IndexOf(a, c) == |a|
  {
  }

  /** Splitting `x & y` where `x` holds no `&`. */
  lemma SplitAfterFirst(x: string, sep: char, y: string)
    requires sep !in x
    ensures SplitOn(x + [sep] + y, sep) == [x] + SplitOn(y, sep)
  {
    var s := x + [sep] + y;
    IndexOfAfterPrefix(x, sep, y);
    assert s[..|x|] == x;
    assert s[|x| + 1..] == y;
  }

  /** A text without the separator is one piece. */
  lemma SplitWithoutSeparator(s: string, sep: char)
    requires sep !in s
    ensures SplitOn(s, sep) == [s]
  {
    IndexOfAbsent(s, sep);
  }

  /** Parameter `name=value` where `name` holds no `=`. */
  lemma ParamSplit(name: string, value: string)
    requires '=' !in name
    ensures Param(name + "=" + value) == (name, value)
  {
    var p := name + "=" + value;
    IndexOfAfterPrefix(name, '=', value);
    assert p[..|name|] == name;
    assert p[|name| + 1..] == value;
  }
}
