/** What the handlers ask of user-supplied text: white space at its ends, and its length in UTF-8 bytes. */
module Text {
  import opened Wrappers

  // The White_Space characters of Unicode.
  predicate IsSpace(c: char) {
    || '\t' <= c <= '\r' || c == ' '
    || c in {'\U{85}', '\U{A0}', '\U{1680}', '\U{2028}', '\U{2029}', '\U{202F}', '\U{205F}', '\U{3000}'}
    || '\U{2000}' <= c <= '\U{200A}'
  }

  predicate AllSpace(s: string) {
    forall i :: 0 <= i < |s| ==> IsSpace(s[i])
  }

  // `r` is `s` less white space at both ends, and has none left there.
  predicate Trimmed(s: string, r: string, left: nat) {
    && left + |r| <= |s| && r == s[left..left + |r|]
    && AllSpace(s[..left]) && AllSpace(s[left + |r|..])
    && (r != "" ==> !IsSpace(r[0]) && !IsSpace(r[|r| - 1]))
  }

  function TrimLeft(s: string): (r: string)
    ensures |r| <= |s| && r == s[|s| - |r|..] && AllSpace(s[..|s| - |r|])
    ensures r != "" ==> !IsSpace(r[0])
  {
    if s != "" && IsSpace(s[0]) then
      var r := TrimLeft(s[1..]);
      assert s[..|s| - |r|] == [s[0]] + s[1..][..|s| - 1 - |r|];
      r
    else s
  }

  function TrimRight(s: string): (r: string)
    ensures |r| <= |s| && r == s[..|r|] && AllSpace(s[|r|..])
    ensures r != "" ==> !IsSpace(r[|r| - 1])
  {
    if s != "" && IsSpace(s[|s| - 1]) then
      var r := TrimRight(s[..|s| - 1]);
      assert s[|r|..] == s[..|s| - 1][|r|..] + [s[|s| - 1]];
      r
    else s
  }

  function TrimSpace(s: string): (r: string)
    ensures exists left: nat :: Trimmed(s, r, left)
  {
    var t := TrimLeft(s);
    var r := TrimRight(t);
    var left := |s| - |t|;
    assert s[left + |r|..] == t[|r|..];
    assert Trimmed(s, r, left);
    r
  }

  // There is only one way to trim a text.
  lemma TrimmedIsUnique(s: string, r: string, left: nat)
    requires Trimmed(s, r, left)
    ensures r == TrimSpace(s)
  {
    hide IsSpace;
    var t := TrimSpace(s);
    var i: nat :| Trimmed(s, t, i);
    if r != "" {
      TrimmedInside(s, r, left, t, i);
    }
    if t != "" {
      TrimmedInside(s, t, i, r, left);
    }
  }

  // What one trimming keeps, every trimming keeps.
  lemma TrimmedInside(s: string, r: string, left: nat, t: string, i: nat)
    requires Trimmed(s, r, left) && Trimmed(s, t, i) && r != ""
    ensures i <= left && left + |r| <= i + |t|
  {
    hide IsSpace;
    assert s[left] == r[0] && s[left + |r| - 1] == r[|r| - 1];
    assert forall k :: 0 <= k < i ==> s[k] == s[..i][k];
    assert forall k :: i + |t| <= k < |s| ==> s[k] == s[i + |t|..][k - i - |t|];
  }

  lemma TrimOfTrimmed(s: string)
    requires s != "" ==> !IsSpace(s[0]) && !IsSpace(s[|s| - 1])
    ensures TrimSpace(s) == s
  {
    assert Trimmed(s, s, 0);
    TrimmedIsUnique(s, s, 0);
  }

  // ----- UTF-8, RFC 3629 -----

  type Octet = x: int | 0 <= x < 256

  function EncodeChar(c: char): (b: seq<Octet>)
    ensures 1 <= |b| <= 4
  {
    var n := c as int;
    if n < 0x80 then [n]
    else if n < 0x800 then [0xC0 + n / 64, 0x80 + n % 64]
    else if n < 0x1_0000 then [0xE0 + n / 64 / 64, 0x80 + n / 64 % 64, 0x80 + n % 64]
    else [0xF0 + n / 64 / 64 / 64, 0x80 + n / 64 / 64 % 64, 0x80 + n / 64 % 64, 0x80 + n % 64]
  }

  function Utf8(s: string): (b: seq<Octet>)
    ensures |s| <= |b| <= 4 * |s|
  {
    if s == "" then [] else EncodeChar(s[0]) + Utf8(s[1..])
  }

  // The length handlers ask for is in bytes.
  function Size(s: string): (n: nat)
    ensures |s| <= n <= 4 * |s|
  {
    |Utf8(s)|
  }

  predicate IsTail(x: Octet) {
    0x80 <= x < 0xC0
  }

  // How many bytes a character takes, by its first byte.
  function Width(first: Octet): nat {
    if first < 0x80 then 1 else if first < 0xC0 then 0 else if first < 0xE0 then 2 else if first < 0xF0 then 3 else if first < 0xF8 then 4 else 0
  }

  // The number written in the bytes of one character: what the first byte leaves, then six bits of each other.
  function Number(b: seq<Octet>): int
    requires b != [] && |b| == Width(b[0])
  {
    var lead: int := b[0];
    if |b| == 1 then lead
    else if |b| == 2 then More(lead - 0xC0, b[1])
    else if |b| == 3 then More(More(lead - 0xE0, b[1]), b[2])
    else More(More(More(lead - 0xF0, b[1]), b[2]), b[3])
  }

  function More(high: int, x: Octet): int {
    high * 64 + (x as int - 0x80)
  }

  // The shortest form of a number that is a character.
  predicate IsChar(b: seq<Octet>) {
    && b != [] && |b| == Width(b[0]) && (forall i :: 1 <= i < |b| ==> IsTail(b[i]))
    && var n := Number(b);
       && (|b| == 1 || (|b| == 2 && n >= 0x80) || (|b| == 3 && n >= 0x800) || (|b| == 4 && n >= 0x1_0000))
       && (n < 0xD800 || 0xE000 <= n < 0x11_0000)
  }

  function DecodeUtf8(b: seq<Octet>): Option<string> {
    if b == [] then Some("")
    else
      var w := Width(b[0]);
      if w == 0 || w > |b| || !IsChar(b[..w]) then None
      else
        var rest :- DecodeUtf8(b[w..]);
        Some([Number(b[..w]) as char] + rest)
  }

  lemma MoreOf(n: nat)
    ensures More(n / 64, 0x80 + n % 64) == n && IsTail(0x80 + n % 64)
  {}

  lemma OfMore(high: nat, x: Octet)
    requires IsTail(x)
    ensures More(high, x) >= 0 && More(high, x) / 64 == high && More(high, x) % 64 == x as int - 0x80
    ensures high <= More(high, x)
  {}

  lemma CharRoundTrip(c: char)
    ensures IsChar(EncodeChar(c)) && Number(EncodeChar(c)) == c as int
  {
    hide More, IsTail;
    var n := c as int;
    MoreOf(n);
    MoreOf(n / 64);
    MoreOf(n / 64 / 64);
  }

  lemma NumberRoundTrip(b: seq<Octet>)
    requires IsChar(b)
    ensures 0 <= Number(b) < 0xD800 || 0xE000 <= Number(b) < 0x11_0000
    ensures EncodeChar(Number(b) as char) == b
  {
    hide More;
    var lead: int := b[0];
    if |b| == 2 {
      OfMore(lead - 0xC0, b[1]);
    } else if |b| == 3 {
      OfMore(lead - 0xE0, b[1]);
      OfMore(More(lead - 0xE0, b[1]), b[2]);
    } else if |b| == 4 {
      OfMore(lead - 0xF0, b[1]);
      OfMore(More(lead - 0xF0, b[1]), b[2]);
      OfMore(More(More(lead - 0xF0, b[1]), b[2]), b[3]);
    }
  }

  // What is encoded reads back, and what reads back is the encoding of what was read.
  lemma {:induction false} DecodeOfUtf8(s: string)
    ensures DecodeUtf8(Utf8(s)) == Some(s)
  {
    hide IsChar, Number, EncodeChar;
    if s != "" {
      var first := EncodeChar(s[0]);
      CharRoundTrip(s[0]);
      FirstWidth(first);
      assert (first + Utf8(s[1..]))[..|first|] == first && (first + Utf8(s[1..]))[|first|..] == Utf8(s[1..]);
      DecodeOfUtf8(s[1..]);
      assert [s[0]] + s[1..] == s;
    }
  }

  lemma FirstWidth(b: seq<Octet>)
    requires IsChar(b)
    ensures b != [] && Width(b[0]) == |b|
  {}

  lemma {:induction false} Utf8OfDecoded(b: seq<Octet>)
    requires DecodeUtf8(b).Some?
    ensures Utf8(DecodeUtf8(b).value) == b
  {
    hide IsChar, Number, EncodeChar;
    if b != [] {
      var w := Width(b[0]);
      NumberRoundTrip(b[..w]);
      Utf8OfDecoded(b[w..]);
      var c, rest := Number(b[..w]) as char, DecodeUtf8(b[w..]).value;
      assert DecodeUtf8(b) == Some([c] + rest);
      hide Utf8, DecodeUtf8;
      Utf8Cons(c, rest);
      assert b[..w] + b[w..] == b;
    }
  }

  lemma Utf8Cons(c: char, rest: string)
    ensures Utf8([c] + rest) == EncodeChar(c) + Utf8(rest)
  {
    assert ([c] + rest)[1..] == rest;
  }
}
