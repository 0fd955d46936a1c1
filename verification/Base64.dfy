/** Unpadded base64url, section 5 of RFC 4648, as bytes to ASCII bytes. */
module Base64 {
  import opened Wrappers

  type byte = x: int | 0 <= x < 256
  type six = x: int | 0 <= x < 64
  type Bytes = seq<byte>

  const DOT: byte := 46

  // ----- characters -----

  // The character of a six-bit value: A-Z, a-z, 0-9, '-', '_'.
  function CharOf(v: six): (c: byte) {
    if v < 26 then 65 + v
    else if v < 52 then 97 + (v - 26)
    else if v < 62 then 48 + (v - 52)
    else if v == 62 then 45
    else 95
  }

  function ValueOf(c: byte): Option<six> {
    if 65 <= c <= 90 then Some(c - 65)
    else if 97 <= c <= 122 then Some(c - 97 + 26)
    else if 48 <= c <= 57 then Some(c - 48 + 52)
    else if c == 45 then Some(62)
    else if c == 95 then Some(63)
    else None
  }

  // The alphabet and the values are inverse to each other.
  lemma ValueOfCharOf(v: six)
    ensures ValueOf(CharOf(v)) == Some(v)
  {}

  lemma CharOfValueOf(c: byte)
    ensures ValueOf(c).Some? ==> CharOf(ValueOf(c).value) == c
  {}

  // ----- three bytes and four six-bit values -----

  datatype Sixes = Sixes(a: six, b: six, c: six, d: six)

  datatype Eights = Eights(x: byte, y: byte, z: byte)

  function Split(e: Eights): Sixes {
    Sixes(e.x / 4, e.x % 4 * 16 + e.y / 16, e.y % 16 * 4 + e.z / 64, e.z % 64)
  }

  function Join(s: Sixes): Eights {
    Eights(s.a * 4 + s.b / 16, s.b % 16 * 16 + s.c / 4, s.c % 4 * 64 + s.d)
  }

  lemma JoinOfSplit(e: Eights)
    ensures Join(Split(e)) == e
    ensures e.z == 0 ==> Split(e).d == 0
    ensures e.y == 0 && e.z == 0 ==> Split(e).c == 0
  {
    var s := Split(e);
    assert s.b / 16 == e.x % 4 && s.b % 16 == e.y / 16;
    assert s.c / 4 == e.y % 16 && s.c % 4 == e.z / 64;
  }

  lemma SplitOfJoin(s: Sixes)
    ensures Split(Join(s)) == s
  {
    var e := Join(s);
    assert e.x / 4 == s.a && e.x % 4 == s.b / 16;
    assert e.y / 16 == s.b % 16 && e.y % 16 == s.c / 4;
    assert e.z / 64 == s.c % 4 && e.z % 64 == s.d;
  }

  // The first values do not depend on bytes that are not there.
  lemma SplitPartial(s: Sixes)
    ensures Split(Eights(Join(s).x, 0, 0)).a == s.a
    ensures Split(Eights(Join(s).x, Join(s).y, 0)).a == s.a && Split(Eights(Join(s).x, Join(s).y, 0)).b == s.b
  {
    SplitOfJoin(s);
  }

  // ----- texts -----

  function Group(s: Sixes): (r: Bytes)
    ensures |r| == 4
  {
    [CharOf(s.a), CharOf(s.b), CharOf(s.c), CharOf(s.d)]
  }

  function Encode(b: Bytes): (s: Bytes)
    ensures s == [] <==> b == []
  {
    if b == [] then []
    else if |b| == 1 then Group(Split(Eights(b[0], 0, 0)))[..2]
    else if |b| == 2 then Group(Split(Eights(b[0], b[1], 0)))[..3]
    else Group(Split(Eights(b[0], b[1], b[2]))) + Encode(b[3..])
  }

  // Line ends are skipped wherever they stand.
  function WithoutLineEnds(s: Bytes): Bytes {
    if s == [] then []
    else (if s[0] == 10 || s[0] == 13 then [] else [s[0]]) + WithoutLineEnds(s[1..])
  }

  // The unused low bits of a last partial group are not checked.
  function DecodeClean(s: Bytes): Option<Bytes> {
    if s == [] then Some([])
    else if |s| == 1 then None
    else
      var a :- ValueOf(s[0]);
      var b :- ValueOf(s[1]);
      if |s| == 2 then Some([Join(Sixes(a, b, 0, 0)).x])
      else
        var c :- ValueOf(s[2]);
        if |s| == 3 then Some([Join(Sixes(a, b, c, 0)).x, Join(Sixes(a, b, c, 0)).y])
        else
          var d :- ValueOf(s[3]);
          var rest :- DecodeClean(s[4..]);
          var e := Join(Sixes(a, b, c, d));
          Some([e.x, e.y, e.z] + rest)
  }

  function Decode(s: Bytes): Option<Bytes> {
    DecodeClean(WithoutLineEnds(s))
  }

  predicate InAlphabet(s: Bytes) {
    forall i :: 0 <= i < |s| ==> ValueOf(s[i]).Some?
  }

  lemma GroupAlphabet(s: Sixes)
    ensures InAlphabet(Group(s))
  {
    hide CharOf, ValueOf;
    ValueOfCharOf(s.a);
    ValueOfCharOf(s.b);
    ValueOfCharOf(s.c);
    ValueOfCharOf(s.d);
  }

  lemma {:induction false} EncodeAlphabet(b: Bytes)
    ensures InAlphabet(Encode(b)) && DOT !in Encode(b)
  {
    hide Group, Split, ValueOf;
    if b != [] {
      var g := Group(Split(Eights(b[0], if |b| > 1 then b[1] else 0, if |b| > 2 then b[2] else 0)));
      GroupAlphabet(Split(Eights(b[0], if |b| > 1 then b[1] else 0, if |b| > 2 then b[2] else 0)));
      if |b| > 2 {
        EncodeAlphabet(b[3..]);
        assert Encode(b) == g + Encode(b[3..]);
      } else {
        assert Encode(b) == g[..|b| + 1];
      }
    }
    DotIsOutside(Encode(b));
  }

  lemma DotIsOutside(s: Bytes)
    ensures InAlphabet(s) ==> DOT !in s
  {
    assert ValueOf(DOT).None?;
  }

  lemma {:induction false} NoLineEnds(s: Bytes)
    requires InAlphabet(s)
    ensures WithoutLineEnds(s) == s
  {
    if s != [] {
      NoLineEnds(s[1..]);
      assert ValueOf(s[0]).Some?;
    }
  }

  // ----- round trips -----

  lemma {:induction false} DecodeOfEncodeClean(b: Bytes)
    ensures DecodeClean(Encode(b)) == Some(b)
  {
    hide CharOf, ValueOf, Split, Join;
    if b != [] {
      var e := Eights(b[0], if |b| > 1 then b[1] else 0, if |b| > 2 then b[2] else 0);
      var s := Split(e);
      JoinOfSplit(e);
      ValueOfCharOf(s.a);
      ValueOfCharOf(s.b);
      ValueOfCharOf(s.c);
      ValueOfCharOf(s.d);
      if |b| > 2 {
        DecodeOfEncodeClean(b[3..]);
        assert Encode(b)[4..] == Encode(b[3..]);
        assert b == [b[0], b[1], b[2]] + b[3..];
      } else if |b| == 2 {
        assert s == Sixes(s.a, s.b, s.c, 0);
        assert Encode(b) == [CharOf(s.a), CharOf(s.b), CharOf(s.c)];
        assert b == [e.x, e.y];
      } else {
        assert s == Sixes(s.a, s.b, 0, 0);
        assert Encode(b) == [CharOf(s.a), CharOf(s.b)];
        assert b == [e.x];
      }
    }
  }

  // Decoding undoes encoding, at every length.
  lemma DecodeOfEncode(b: Bytes)
    ensures Decode(Encode(b)) == Some(b)
  {
    hide InAlphabet, Encode, WithoutLineEnds, DecodeClean;
    EncodeAlphabet(b);
    NoLineEnds(Encode(b));
    DecodeOfEncodeClean(b);
  }

  // A last group of two characters: the first comes back.
  lemma EncodeOfTwo(s: Bytes)
    requires |s| == 2 && DecodeClean(s).Some?
    ensures var e := Encode(DecodeClean(s).value);
            |e| == 2 && e[0] == s[0]
  {
    hide CharOf, ValueOf, Split, Join;
    var v := Sixes(ValueOf(s[0]).value, ValueOf(s[1]).value, 0, 0);
    SplitPartial(v);
    CharOfValueOf(s[0]);
  }

  // A last group of three characters: the first two come back.
  lemma EncodeOfThree(s: Bytes)
    requires |s| == 3 && DecodeClean(s).Some?
    ensures var e := Encode(DecodeClean(s).value);
            |e| == 3 && e[0] == s[0] && e[1] == s[1]
  {
    hide CharOf, ValueOf, Split, Join;
    var v := Sixes(ValueOf(s[0]).value, ValueOf(s[1]).value, ValueOf(s[2]).value, 0);
    SplitPartial(v);
    CharOfValueOf(s[0]);
    CharOfValueOf(s[1]);
  }

  // A whole group comes back.
  lemma EncodeOfGroup(s: Bytes)
    requires |s| >= 4 && DecodeClean(s).Some?
    ensures DecodeClean(s[4..]).Some?
    ensures Encode(DecodeClean(s).value) == s[..4] + Encode(DecodeClean(s[4..]).value)
  {
    hide CharOf, ValueOf, Split, Join;
    var v := Sixes(ValueOf(s[0]).value, ValueOf(s[1]).value, ValueOf(s[2]).value, ValueOf(s[3]).value);
    var b, rest := DecodeClean(s).value, DecodeClean(s[4..]).value;
    SplitOfJoin(v);
    CharOfValueOf(s[0]);
    CharOfValueOf(s[1]);
    CharOfValueOf(s[2]);
    CharOfValueOf(s[3]);
    assert Group(v) == s[..4];
    assert b == [Join(v).x, Join(v).y, Join(v).z] + rest;
    assert b[3..] == rest;
  }

  // Equal up to the last character, and in whole groups equal.
  predicate Alike(e: Bytes, s: Bytes) {
    && |e| == |s| && (forall i :: 0 <= i < |s| - 1 ==> e[i] == s[i])
    && (|s| % 4 == 0 ==> e == s)
  }

  lemma AlikePrepended(e: Bytes, s: Bytes)
    requires |s| >= 4 && Alike(e, s[4..])
    ensures Alike(s[..4] + e, s)
  {
    var all := s[..4] + e;
    forall i | 0 <= i < |s| - 1 ensures all[i] == s[i] {
      if i >= 4 {
        assert all[i] == e[i - 4];
        assert s[i] == s[4..][i - 4];
      }
    }
    if |s| % 4 == 0 {
      assert |s[4..]| % 4 == 0;
      assert s == s[..4] + s[4..];
    }
  }

  // What decodes is the encoding of the result, up to the unused bits of its last character.
  lemma {:induction false} EncodeOfDecodeClean(s: Bytes)
    requires DecodeClean(s).Some?
    ensures Alike(Encode(DecodeClean(s).value), s)
  {
    hide Encode, DecodeClean, Alike;
    if |s| >= 4 {
      EncodeOfGroup(s);
      EncodeOfDecodeClean(s[4..]);
      AlikePrepended(Encode(DecodeClean(s[4..]).value), s);
    } else {
      EncodeOfFew(s);
    }
  }

  lemma EncodeOfFew(s: Bytes)
    requires |s| < 4 && DecodeClean(s).Some?
    ensures Alike(Encode(DecodeClean(s).value), s)
  {
    hide Encode, DecodeClean;
    if |s| == 2 {
      EncodeOfTwo(s);
    } else if |s| == 3 {
      EncodeOfThree(s);
    } else {
      NothingDecodes(s);
    }
  }

  lemma NothingDecodes(s: Bytes)
    requires |s| < 2 && DecodeClean(s).Some?
    ensures s == [] && Encode(DecodeClean(s).value) == []
  {
    hide CharOf, ValueOf, Split, Join;
  }

  // The encoding of appendix A of RFC 7636, "A-z_4ME", with both characters that standard base64 has not.
  lemma KnownEncoding()
    ensures Encode([3, 236, 255, 224, 193]) == [65, 45, 122, 95, 52, 77, 69]
  {
    hide Encode;
    assert Group(Split(Eights(3, 236, 255))) == [65, 45, 122, 95];
    assert Group(Split(Eights(224, 193, 0)))[..3] == [52, 77, 69];
    EncodeFive(3, 236, 255, 224, 193);
  }

  lemma EncodeFive(a: byte, b: byte, c: byte, d: byte, e: byte)
    ensures Encode([a, b, c, d, e]) == Group(Split(Eights(a, b, c))) + Group(Split(Eights(d, e, 0)))[..3]
  {
    hide Group, Split;
    assert [a, b, c, d, e][3..] == [d, e];
  }
}
