/** The browser's URL handling the pages rely on: `encodeURIComponent`, which the
    registration pages apply to the e-mail they pass on, and the
    `application/x-www-form-urlencoded` reading behind `URLSearchParams.get`, with
    which the verify-email page reads it back. Both rest on UTF-8. */
module Url {
  import opened Common
  import opened Text

  type Byte = b: int | 0 <= b < 256

  /** The characters `encodeURIComponent` leaves as they are. */
  predicate Unreserved(c: char) {
    ('A' <= c <= 'Z') || ('a' <= c <= 'z') || ('0' <= c <= '9') || c in "-_.!~*'()"
  }

  /** The UTF-8 encoding of one character (a Unicode scalar value). */
  function Utf8Char(c: char): (r: seq<Byte>)
    ensures 1 <= |r| <= 4
    ensures |r| == 1 <==> c as int < 0x80
    ensures |r| == 1 ==> r[0] == c as int
  {
    var n := c as int;
    if n < 0x80 then [n]
    else if n < 0x800 then [0xC0 + n / 64, 0x80 + n % 64]
    else if n < 0x10000 then [0xE0 + n / 4096, 0x80 + n / 64 % 64, 0x80 + n % 64]
    else [0xF0 + n / 262144, 0x80 + n / 4096 % 64, 0x80 + n / 64 % 64, 0x80 + n % 64]
  }

  function Utf8(s: string): (r: seq<Byte>)
    ensures |s| <= |r| <= 4 * |s|
  {
    if s == [] then [] else Utf8Char(s[0]) + Utf8(s[1..])
  }

  /** An upper-case hexadecimal digit, as the percent-encoding writes it. */
  function HexDigit(d: nat): (c: char)
    requires d < 16
    ensures Unreserved(c)
  {
    if d < 10 then ('0' as int + d) as char else ('A' as int + d - 10) as char
  }

  predicate IsHex(c: char) {
    ('0' <= c <= '9') || ('A' <= c <= 'F') || ('a' <= c <= 'f')
  }

  function HexValue(c: char): (d: nat)
    requires IsHex(c)
    ensures d < 16
  {
    if '0' <= c <= '9' then c as int - '0' as int
    else if 'A' <= c <= 'F' then c as int - 'A' as int + 10
    else c as int - 'a' as int + 10
  }

  lemma HexValueOfDigit(d: nat)
    requires d < 16
    ensures IsHex(HexDigit(d)) && HexValue(HexDigit(d)) == d
  {
  }

  /** `%XY` for each byte. */
  function PercentAll(bs: seq<Byte>): (r: string)
    ensures |r| == 3 * |bs|
    ensures forall i :: 0 <= i < |r| ==> Unreserved(r[i]) || r[i] == '%'
  {
    if bs == [] then [] else ['%', HexDigit(bs[0] / 16), HexDigit(bs[0] % 16)] + PercentAll(bs[1..])
  }

  function EncodeChar(c: char): (r: string)
    ensures |r| >= 1
    ensures forall i :: 0 <= i < |r| ==> Unreserved(r[i]) || r[i] == '%'
  {
    if Unreserved(c) then [c] else PercentAll(Utf8Char(c))
  }

  /** `encodeURIComponent`: unreserved characters stay, every other one becomes the
      percent-encoding of its UTF-8 bytes. The result holds only unreserved
      characters and `%`, so none of `&`, `=`, `+`, `#` or `?`. */
  function EncodeURIComponent(s: string): (r: string)
    ensures |s| <= |r|
    ensures forall i :: 0 <= i < |r| ==> Unreserved(r[i]) || r[i] == '%'
    ensures (forall i :: 0 <= i < |s| ==> Unreserved(s[i])) ==> r == s
  {
    if s == [] then [] else EncodeChar(s[0]) + EncodeURIComponent(s[1..])
  }

  /** The percent-decoding of a string: `%XY` with two hexadecimal digits is the
      byte XY, and any other character stands for its own UTF-8 bytes. */
  function PercentDecode(s: string): seq<Byte>
    decreases |s|
  {
    if s == [] then []
    else if s[0] == '%' && |s| >= 3 && IsHex(s[1]) && IsHex(s[2]) then
      [HexValue(s[1]) * 16 + HexValue(s[2])] + PercentDecode(s[3..])
    else Utf8Char(s[0]) + PercentDecode(s[1..])
  }

  predicate Continuation(b: Byte) {
    0x80 <= b < 0xC0
  }

  predicate IsScalar(n: int) {
    0 <= n < 0xD800 || 0xE000 <= n <= 0x10FFFF
  }

  const REPLACEMENT: char := '\U{FFFD}'

  function Scalar2(a: int, b: int): int {
    (a - 0xC0) * 64 + (b - 0x80)
  }

  function Scalar3(a: int, b: int, c: int): int {
    (a - 0xE0) * 4096 + (b - 0x80) * 64 + (c - 0x80)
  }

  function Scalar4(a: int, b: int, c: int, d: int): int {
    (a - 0xF0) * 262144 + (b - 0x80) * 4096 + (c - 0x80) * 64 + (d - 0x80)
  }

  /** UTF-8 decoding: each well-formed sequence (no overlong form, no surrogate, no
      value past U+10FFFF) is its character; a byte that starts none is U+FFFD. */
  function Utf8Decode(bs: seq<Byte>): string
    decreases |bs|
  {
    if bs == [] then []
    else if bs[0] < 0x80 then [bs[0] as char] + Utf8Decode(bs[1..])
    else if 0xC2 <= bs[0] < 0xE0 && |bs| >= 2 && Continuation(bs[1]) then
      [Scalar2(bs[0], bs[1]) as char] + Utf8Decode(bs[2..])
    else if 0xE0 <= bs[0] < 0xF0 && |bs| >= 3 && Continuation(bs[1]) && Continuation(bs[2])
            && Scalar3(bs[0], bs[1], bs[2]) >= 0x800 && IsScalar(Scalar3(bs[0], bs[1], bs[2])) then
      [Scalar3(bs[0], bs[1], bs[2]) as char] + Utf8Decode(bs[3..])
    else if 0xF0 <= bs[0] < 0xF5 && |bs| >= 4 && Continuation(bs[1]) && Continuation(bs[2]) && Continuation(bs[3])
            && 0x10000 <= Scalar4(bs[0], bs[1], bs[2], bs[3]) <= 0x10FFFF then
      [Scalar4(bs[0], bs[1], bs[2], bs[3]) as char] + Utf8Decode(bs[4..])
    else [REPLACEMENT] + Utf8Decode(bs[1..])
  }

  lemma Split64(n: int)
    requires n >= 0
    ensures n / 4096 == n / 64 / 64 && n / 262144 == n / 4096 / 64
    ensures n == n / 64 * 64 + n % 64
    ensures n / 64 == n / 4096 * 64 + n / 64 % 64
    ensures n / 4096 == n / 262144 * 64 + n / 4096 % 64
  {
    var q := n / 64;
    var q2 := q / 64;
    assert n == q2 * 4096 + (q % 64) * 64 + n % 64;
    var q3 := q2 / 64;
    assert n == q3 * 262144 + (q2 % 64) * 4096 + (q % 64) * 64 + n % 64;
  }

  lemma DecodeTwo(c: char, rest: seq<Byte>)
    requires 0x80 <= c as int < 0x800
    ensures Utf8Decode(Utf8Char(c) + rest) == [c] + Utf8Decode(rest)
  {
    var n := c as int;
    var bs := Utf8Char(c) + rest;
    assert n == n / 64 * 64 + n % 64;
    assert bs[2..] == rest;
    assert Scalar2(bs[0], bs[1]) == n;
  }

  lemma DecodeThree(c: char, rest: seq<Byte>)
    requires 0x800 <= c as int < 0x10000
    ensures Utf8Decode(Utf8Char(c) + rest) == [c] + Utf8Decode(rest)
  {
    var n := c as int;
    var bs := Utf8Char(c) + rest;
    Split64(n);
    assert bs[3..] == rest;
    assert Scalar3(bs[0], bs[1], bs[2]) == n;
  }

  lemma DecodeFour(c: char, rest: seq<Byte>)
    requires 0x10000 <= c as int
    ensures Utf8Decode(Utf8Char(c) + rest) == [c] + Utf8Decode(rest)
  {
    var n := c as int;
    var bs := Utf8Char(c) + rest;
    Split64(n);
    assert bs[4..] == rest;
    assert Scalar4(bs[0], bs[1], bs[2], bs[3]) == n;
  }

  /** Decoding the bytes of a character gives the character back. */
  lemma DecodeChar(c: char, rest: seq<Byte>)
    ensures Utf8Decode(Utf8Char(c) + rest) == [c] + Utf8Decode(rest)
  {
    var n := c as int;
    if n < 0x80 {
      assert (Utf8Char(c) + rest)[1..] == rest;
    } else if n < 0x800 {
      DecodeTwo(c, rest);
    } else if n < 0x10000 {
      DecodeThree(c, rest);
    } else {
      DecodeFour(c, rest);
    }
  }

  /** UTF-8 decoding undoes UTF-8 encoding. */
  lemma {:induction false} Utf8RoundTrip(s: string)
    ensures Utf8Decode(Utf8(s)) == s
  {
    if s != [] {
      DecodeChar(s[0], Utf8(s[1..]));
      Utf8RoundTrip(s[1..]);
    }
  }

  /** One `%XY` decodes to the byte it was written from. */
  lemma PercentDecodeByte(b: Byte, rest: string)
    ensures PercentDecode(['%', HexDigit(b / 16), HexDigit(b % 16)] + rest) == [b] + PercentDecode(rest)
  {
    var t := ['%', HexDigit(b / 16), HexDigit(b % 16)] + rest;
    HexValueOfDigit(b / 16);
    HexValueOfDigit(b % 16);
    assert t[0] == '%' && IsHex(t[1]) && IsHex(t[2]);
    assert HexValue(t[1]) * 16 + HexValue(t[2]) == b;
    assert t[3..] == rest;
  }

  lemma {:induction false} PercentDecodeAll(bs: seq<Byte>, rest: string)
    ensures PercentDecode(PercentAll(bs) + rest) == bs + PercentDecode(rest)
  {
    if bs != [] {
      var tail := PercentAll(bs[1..]) + rest;
      assert PercentAll(bs) + rest == ['%', HexDigit(bs[0] / 16), HexDigit(bs[0] % 16)] + tail;
      PercentDecodeByte(bs[0], tail);
      PercentDecodeAll(bs[1..], rest);
      assert bs == [bs[0]] + bs[1..];
    } else {
      assert PercentAll(bs) + rest == rest;
    }
  }

  lemma DecodeEncodedChar(c: char, rest: string)
    ensures PercentDecode(EncodeChar(c) + rest) == Utf8Char(c) + PercentDecode(rest)
  {
    if Unreserved(c) {
      assert (EncodeChar(c) + rest)[1..] == rest;
    } else {
      PercentDecodeAll(Utf8Char(c), rest);
    }
  }

  /** Percent-decoding the output of `encodeURIComponent` gives the UTF-8 bytes of
      its input. */
  lemma {:induction false} PercentDecodeEncoded(s: string)
    ensures PercentDecode(EncodeURIComponent(s)) == Utf8(s)
  {
    if s != [] {
      DecodeEncodedChar(s[0], EncodeURIComponent(s[1..]));
      PercentDecodeEncoded(s[1..]);
    }
  }

  /** The part of a URL after its first `?` and before the `#` that follows, which
      `URLSearchParams` reads; empty when there is no `?`. */
  function QueryOf(url: string): (r: string)
    ensures |r| <= |url|
  {
    var i := IndexOf(url, '?');
    if i == |url| then [] else var rest := url[i + 1..]; rest[..IndexOf(rest, '#')]
  }

  /** The pieces of `s` between the separators, as `String.prototype.split`. */
  function Split(s: string, sep: char): (r: seq<string>)
    ensures |r| >= 1
    ensures sep !in s ==> r == [s]
    decreases |s|
  {
    if s == [] then [[]]
    else if s[0] == sep then [[]] + Split(s[1..], sep)
    else
      assert forall x :: x in s[1..] ==> x in s;
      assert s == [s[0]] + s[1..];
      var t := Split(s[1..], sep); [[s[0]] + t[0]] + t[1..]
  }

  /** A name or a value of the form encoding: `+` is a space, then percent- and
      UTF-8 decoding. */
  function DecodeComponent(s: string): string {
    Utf8Decode(PercentDecode(ReplaceChar(s, '+', ' ')))
  }

  /** One `name=value` piece, split at its first `=`; a piece without `=` is a name
      with an empty value. */
  function Pair(piece: string): (string, string) {
    var i := IndexOf(piece, '=');
    (DecodeComponent(piece[..i]), DecodeComponent(if i < |piece| then piece[i + 1..] else []))
  }

  /** The pairs of a query string: its `&`-separated pieces, empty ones skipped. */
  function FormPairs(pieces: seq<string>): (r: seq<(string, string)>)
    ensures |r| <= |pieces|
  {
    if pieces == [] then []
    else if pieces[0] == [] then FormPairs(pieces[1..])
    else [Pair(pieces[0])] + FormPairs(pieces[1..])
  }

  function Lookup(pairs: seq<(string, string)>, name: string): (r: Option<string>)
    ensures r.Some? ==> exists p :: p in pairs && p.0 == name && p.1 == r.value
    ensures r.None? <==> forall p :: p in pairs ==> p.0 != name
  {
    if pairs == [] then None
    else if pairs[0].0 == name then Some(pairs[0].1)
    else Lookup(pairs[1..], name)
  }

  /** `new URLSearchParams(query).get(name)`: the value of the first pair with that
      name, or `null`, here `None`. */
  function SearchParam(query: string, name: string): Option<string> {
    Lookup(FormPairs(Split(query, '&')), name)
  }

  /** A name made of unreserved characters reads as itself. */
  lemma {:induction false} DecodeUnreserved(s: string)
    requires forall i :: 0 <= i < |s| ==> Unreserved(s[i])
    ensures DecodeComponent(s) == s
  {
    assert ReplaceChar(s, '+', ' ') == s;
    assert EncodeURIComponent(s) == s;
    PercentDecodeEncoded(s);
    Utf8RoundTrip(s);
  }

  /** Reading an encoded value back: `encodeURIComponent` leaves no `+`, so the
      form decoding undoes it. */
  lemma DecodeEncoded(s: string)
    ensures DecodeComponent(EncodeURIComponent(s)) == s
  {
    var e := EncodeURIComponent(s);
    assert ReplaceChar(e, '+', ' ') == e;
    PercentDecodeEncoded(s);
    Utf8RoundTrip(s);
  }

  lemma QueryOfLink(path: string, q: string)
    requires '?' !in path && '#' !in q
    ensures QueryOf(path + "?" + q) == q
  {
    var url := path + "?" + q;
    assert url[|path|] == '?';
    assert forall k :: 0 <= k < |path| ==> url[k] == path[k];
    assert IndexOf(url, '?') == |path|;
    assert url[|path| + 1..] == q;
  }

  /** A reserved character other than `=` and `%` occurs nowhere in `name=e` when the
      name is unreserved and `e` is encoded. */
  lemma PairLacks(name: string, e: string, c: char)
    requires forall i :: 0 <= i < |name| ==> Unreserved(name[i])
    requires forall i :: 0 <= i < |e| ==> Unreserved(e[i]) || e[i] == '%'
    requires !Unreserved(c) && c != '=' && c != '%'
    ensures c !in name + "=" + e
  {
    var q := name + "=" + e;
    forall k | 0 <= k < |q| ensures q[k] != c {
      if k < |name| { assert q[k] == name[k]; }
      else if k > |name| { assert q[k] == e[k - |name| - 1]; }
    }
  }

  lemma SearchParamOfPair(name: string, e: string)
    requires name != [] && forall i :: 0 <= i < |name| ==> Unreserved(name[i])
    requires forall i :: 0 <= i < |e| ==> Unreserved(e[i]) || e[i] == '%'
    ensures SearchParam(name + "=" + e, name) == Some(DecodeComponent(e))
  {
    var q := name + "=" + e;
    PairLacks(name, e, '&');
    assert q[|name|] == '=';
    assert forall k :: 0 <= k < |name| ==> q[k] == name[k];
    assert IndexOf(q, '=') == |name|;
    assert q[..|name|] == name && q[|name| + 1..] == e;
    DecodeUnreserved(name);
    assert FormPairs([q]) == [Pair(q)];
  }

  /** A link `path?name=` followed by the encoded value: `URLSearchParams` reads the
      value back unchanged under that name, whatever characters it holds. */
  lemma LinkRoundTrip(path: string, name: string, value: string)
    requires '?' !in path
    requires name != [] && forall i :: 0 <= i < |name| ==> Unreserved(name[i])
    ensures SearchParam(QueryOf(path + "?" + name + "=" + EncodeURIComponent(value)), name) == Some(value)
  {
    var e := EncodeURIComponent(value);
    var q := name + "=" + e;
    PairLacks(name, e, '#');
    assert path + "?" + name + "=" + e == path + "?" + q;
    QueryOfLink(path, q);
    SearchParamOfPair(name, e);
    DecodeEncoded(value);
  }
}
