/**
 Instants as text. A stored time is the UTC form of RFC 3339 with a nanosecond fraction
 whose trailing zeros are dropped, and no fraction at all on a whole second.
 An instant is a count of nanoseconds since the start of year 0.
 */
module Timestamp {
  import opened Wrappers
  import opened TextOrder
  import opened Decimal
  import opened Calendar

  type Instant = int

  const SECOND: int := 1_000_000_000

  // The time nobody has set: the start of year 1.
  const UNSET: Instant := 366 * DAY * SECOND

  // What a clock reads.
  type Stamp = t: Instant | InRange(t) witness 0

  predicate InRange(t: Instant) {
    0 <= t < SECONDS_LIMIT * SECOND
  }

  // ----- printing -----

  function Strip(s: string): (r: string)
    ensures |r| <= |s| && r == s[..|r|]
    ensures forall i :: |r| <= i < |s| ==> s[i] == '0'
    ensures r != "" ==> r[|r| - 1] != '0'
  {
    if s != "" && s[|s| - 1] == '0' then Strip(s[..|s| - 1]) else s
  }

  function Fraction(n: nat): string
    requires n < SECOND
  {
    if n == 0 then "" else "." + Strip(Print(n, 9))
  }

  function DateText(c: Civil): (s: string)
    ensures |s| == 10
  {
    Print(c.year, 4) + "-" + (Print(c.month, 2) + "-" + Print(c.day, 2))
  }

  function TimeText(c: Civil): (s: string)
    ensures |s| == 8
  {
    Print(c.hour, 2) + ":" + (Print(c.minute, 2) + ":" + Print(c.second, 2))
  }

  function DateTime(c: Civil): (s: string)
    ensures |s| == 19
  {
    DateText(c) + "T" + TimeText(c)
  }

  function Format(t: Instant): string
    requires InRange(t)
  {
    DateTime(CivilOf(t / SECOND)) + (Fraction(t % SECOND) + "Z")
  }

  // ----- parsing -----

  function ParseField(s: string, min: nat, max: nat): Option<nat> {
    if AllDigits(s) && min <= Value(s) <= max then Some(Value(s)) else None
  }

  function ParseDateTime(s: string): Option<Civil>
    requires |s| == 19
  {
    if !(s[4] == '-' && s[7] == '-' && s[10] == 'T' && s[13] == ':' && s[16] == ':') then None
    else
      var year :- ParseField(s[..4], 0, 9999);
      var month :- ParseField(s[5..7], 1, 12);
      var day :- ParseField(s[8..10], 1, DaysInMonth(year, month));
      var hour :- ParseField(s[11..13], 0, 23);
      var minute :- ParseField(s[14..16], 0, 59);
      var second :- ParseField(s[17..], 0, 59);
      Some(Civil(year, month, day, hour, minute, second))
  }

  function Zeros(n: nat): (s: string)
    ensures |s| == n && AllDigits(s)
    ensures forall i :: 0 <= i < n ==> s[i] == '0'
  {
    seq(n, _ => '0')
  }

  // Digits beyond the ninth are dropped.
  function Nanoseconds(digits: string): nat
    requires AllDigits(digits)
  {
    if |digits| > 9 then Value(digits[..9]) else Value(digits + Zeros(9 - |digits|))
  }

  function ParseFraction(s: string): Option<nat> {
    if s == "" then Some(0)
    else if s[0] in {'.', ','} && |s| > 1 && AllDigits(s[1..]) then Some(Nanoseconds(s[1..]))
    else None
  }

  function Parse(s: string): Option<Instant> {
    if |s| < 20 || s[|s| - 1] != 'Z' then None
    else
      var civil :- ParseDateTime(s[..19]);
      var nanos :- ParseFraction(s[19..|s| - 1]);
      if ValidCivil(civil) then Some(SecondsOf(civil) * SECOND + nanos) else None
  }

  // ----- round trip -----

  lemma NinthPower()
    ensures Pow10(9) == SECOND && Pow10(4) == 10_000 && Pow10(2) == 100
  {
    assert Pow10(2) == 100;
    assert Pow10(4) == 10_000;
    assert Pow10(6) == 1_000_000;
    assert Pow10(8) == 100_000_000;
  }

  // Stripping drops exactly the zeros that padding puts back.
  lemma StripThenPad(s: string)
    requires AllDigits(s)
    ensures AllDigits(Strip(s)) && Strip(s) + Zeros(|s| - |Strip(s)|) == s
  {
    var kept := Strip(s);
    assert forall i :: 0 <= i < |kept| ==> kept[i] == s[i];
    assert forall i :: |kept| <= i < |s| ==> (kept + Zeros(|s| - |kept|))[i] == s[i];
  }

  lemma FractionRoundTrip(n: nat)
    requires n < SECOND
    ensures ParseFraction(Fraction(n)) == Some(n)
    ensures n > 0 ==> Strip(Print(n, 9)) != ""
  {
    hide Strip, Print, Value, Pow10;
    if n > 0 {
      NinthPower();
      ValueOfPrint(n, 9);
      var all := Print(n, 9);
      StripThenPad(all);
      ValueOfZeros(9);
      assert all != "" + Zeros(9);
      assert Fraction(n)[1..] == Strip(all);
    }
  }

  lemma {:induction false} ValueOfZeros(n: nat)
    ensures Value(Zeros(n)) == 0
  {
    if n > 0 {
      assert Zeros(n)[..n - 1] == Zeros(n - 1);
      ValueOfZeros(n - 1);
    }
  }

  lemma DateTimeRoundTrip(c: Civil)
    requires ValidCivil(c)
    ensures ParseDateTime(DateTime(c)) == Some(c)
  {
    NinthPower();
    hide Print, Pow10, Value, AllDigits;
    var s := DateTime(c);
    assert s == Print(c.year, 4) + "-" + Print(c.month, 2) + "-" + Print(c.day, 2) + "T"
                + Print(c.hour, 2) + ":" + Print(c.minute, 2) + ":" + Print(c.second, 2);
    assert s[..4] == Print(c.year, 4) && s[4] == '-';
    assert s[5..7] == Print(c.month, 2) && s[7] == '-';
    assert s[8..10] == Print(c.day, 2) && s[10] == 'T';
    assert s[11..13] == Print(c.hour, 2) && s[13] == ':';
    assert s[14..16] == Print(c.minute, 2) && s[16] == ':';
    assert s[17..] == Print(c.second, 2);
    ValueOfPrint(c.year, 4);
    ValueOfPrint(c.month, 2);
    ValueOfPrint(c.day, 2);
    ValueOfPrint(c.hour, 2);
    ValueOfPrint(c.minute, 2);
    ValueOfPrint(c.second, 2);
  }

  lemma ParseJoined(d: string, f: string, c: Civil, n: nat)
    requires |d| == 19 && ParseDateTime(d) == Some(c) && ParseFraction(f) == Some(n) && ValidCivil(c)
    ensures Parse(d + (f + "Z")) == Some(SecondsOf(c) * SECOND + n)
  {
    var s := d + (f + "Z");
    assert s[..19] == d && s[19..|s| - 1] == f && s[|s| - 1] == 'Z';
  }

  lemma ParseParts(c: Civil, n: nat)
    requires ValidCivil(c) && n < SECOND
    ensures Parse(DateTime(c) + (Fraction(n) + "Z")) == Some(SecondsOf(c) * SECOND + n)
  {
    hide *;
    DateTimeRoundTrip(c);
    FractionRoundTrip(n);
    ParseJoined(DateTime(c), Fraction(n), c, n);
  }

  lemma ParseOfFormat(t: Instant)
    requires InRange(t)
    ensures Parse(Format(t)) == Some(t)
  {
    hide Parse, DateTime, Fraction, CivilOf, SecondsOf, ValidCivil;
    CivilOfInverse(t / SECOND);
    ParseParts(CivilOf(t / SECOND), t % SECOND);
  }

  // ----- text order against time order -----

  lemma DateTimeOrder(a: Civil, b: Civil)
    requires ValidCivil(a) && ValidCivil(b)
    ensures DateTime(a) == DateTime(b) <==> a == b
    ensures Less(DateTime(a), DateTime(b)) <==> Before(a, b)
  {
    if DateTime(a) == DateTime(b) {
      DateTimeRoundTrip(a);
      DateTimeRoundTrip(b);
    }
    DateOrder(a, b);
    TimeOrder(a, b);
    FieldOrder(DateText(a), DateText(b), "T", TimeText(a), TimeText(b));
  }

  lemma DateOrder(a: Civil, b: Civil)
    requires ValidCivil(a) && ValidCivil(b)
    ensures DateText(a) == DateText(b) ==> a.year == b.year && a.month == b.month && a.day == b.day
    ensures Less(DateText(a), DateText(b)) <==>
            if a.year != b.year then a.year < b.year
            else if a.month != b.month then a.month < b.month else a.day < b.day
  {
    NinthPower();
    PrintOrder(a.year, b.year, 4);
    PrintOrder(a.month, b.month, 2);
    PrintOrder(a.day, b.day, 2);
    ThreeFields(Print(a.year, 4), Print(b.year, 4), "-", Print(a.month, 2), Print(b.month, 2), "-", Print(a.day, 2), Print(b.day, 2));
  }

  lemma TimeOrder(a: Civil, b: Civil)
    requires ValidCivil(a) && ValidCivil(b)
    ensures TimeText(a) == TimeText(b) ==> a.hour == b.hour && a.minute == b.minute && a.second == b.second
    ensures Less(TimeText(a), TimeText(b)) <==>
            if a.hour != b.hour then a.hour < b.hour
            else if a.minute != b.minute then a.minute < b.minute else a.second < b.second
  {
    NinthPower();
    PrintOrder(a.hour, b.hour, 2);
    PrintOrder(a.minute, b.minute, 2);
    PrintOrder(a.second, b.second, 2);
    ThreeFields(Print(a.hour, 2), Print(b.hour, 2), ":", Print(a.minute, 2), Print(b.minute, 2), ":", Print(a.second, 2), Print(b.second, 2));
  }

  lemma ThreeFields(a: string, a': string, p: string, b: string, b': string, q: string, c: string, c': string)
    requires |a| == |a'| && |b| == |b'| && |c| == |c'|
    ensures a + p + (b + q + c) == a' + p + (b' + q + c') ==> a == a' && b == b' && c == c'
    ensures Less(a + p + (b + q + c), a' + p + (b' + q + c')) <==>
            if a != a' then Less(a, a') else if b != b' then Less(b, b') else Less(c, c')
  {
    FieldOrder(b, b', q, c, c');
    FieldOrder(a, a', p, b + q + c, b' + q + c');
    FieldsEqual(b, b', q, c, c');
    FieldsEqual(a, a', p, b + q + c, b' + q + c');
  }

  lemma FieldsEqual(a: string, b: string, sep: string, x: string, y: string)
    requires |a| == |b|
    ensures a + sep + x == b + sep + y ==> a == b && x == y
  {
    var s, t := a + sep + x, b + sep + y;
    assert a == s[..|a|] && b == t[..|b|];
    assert x == s[|a + sep|..] && y == t[|b + sep|..];
  }

  // A leading field of fixed width is compared first.
  lemma FieldOrder(a: string, b: string, sep: string, x: string, y: string)
    requires |a| == |b|
    ensures Less(a + sep + x, b + sep + y) <==> if a == b then Less(x, y) else Less(a, b)
  {
    if a == b {
      CommonPrefix(a + sep, x, y);
    } else {
      HeadsDecide(a, b, sep + x, sep + y);
      assert a + sep + x == a + (sep + x) && b + sep + y == b + (sep + y);
    }
  }

  lemma {:induction false} PointwiseOrder(a: string, b: string)
    requires |a| == |b| && a != b
    requires forall i :: 0 <= i < |a| ==> a[i] <= b[i]
    ensures Less(a, b)
  {
    if a[0] == b[0] {
      assert a == [a[0]] + a[1..] && b == [b[0]] + b[1..];
      PointwiseOrder(a[1..], b[1..]);
    }
  }

  lemma {:induction false} Diverge(a: string, b: string) returns (i: nat)
    requires !(a <= b) && !(b <= a)
    ensures i < |a| && i < |b| && a[..i] == b[..i] && a[i] != b[i]
  {
    if a[0] != b[0] {
      i := 0;
    } else {
      assert a == [a[0]] + a[1..] && b == [b[0]] + b[1..];
      var j := Diverge(a[1..], b[1..]);
      i := j + 1;
      assert a[..i] == [a[0]] + a[1..][..j] && b[..i] == [b[0]] + b[1..][..j];
    }
  }

  // A stripped fraction that is a proper prefix of another is the smaller number.
  lemma PrefixFractionIsSmaller(m: nat, n: nat)
    requires m < SECOND && n < SECOND && Fraction(m) < Fraction(n)
    ensures m < n
  {
    FractionRoundTrip(m);
    FractionRoundTrip(n);
    if m > 0 {
      NinthPower();
      assert Fraction(m)[1..] == Strip(Print(m, 9)) && Fraction(n)[1..] == Strip(Print(n, 9));
      assert |Fraction(m)| < |Fraction(n)| && Fraction(m) == Fraction(n)[..|Fraction(m)|];
      StrippedPrefix(Print(m, 9), Print(n, 9));
      PrintOrder(m, n, 9);
    }
  }

  lemma StrippedPrefix(a: string, b: string)
    requires |a| == |b| && AllDigits(b) && Strip(a) < Strip(b)
    ensures Less(a, b)
  {
    var k := |Strip(a)|;
    assert forall i :: 0 <= i < k ==> a[i] == Strip(a)[i] == Strip(b)[i] == b[i];
    assert a[|Strip(b)| - 1] == '0' != b[|Strip(b)| - 1];
    PointwiseOrder(a, b);
  }

  // Within one second the text order follows the number, except where one stripped
  // fraction is a proper prefix of the other: there it is reversed.
  lemma FractionOrder(m: nat, n: nat)
    requires m < SECOND && n < SECOND
    ensures Less(Fraction(m) + "Z", Fraction(n) + "Z") <==>
            if Fraction(m) < Fraction(n) || Fraction(n) < Fraction(m) then n < m else m < n
  {
    var fm, fn := Fraction(m), Fraction(n);
    FractionRoundTrip(m);
    FractionRoundTrip(n);
    if fm == fn {
      Trichotomy(fm + "Z", fn + "Z");
    } else if fm < fn {
      PrefixFractionIsSmaller(m, n);
      FirstDifference(fm + "Z", fn + "Z", |fm|);
    } else if fn < fm {
      PrefixFractionIsSmaller(n, m);
      FirstDifference(fm + "Z", fn + "Z", |fn|);
    } else {
      DivergingFractions(m, n);
    }
  }

  lemma DivergingFractions(m: nat, n: nat)
    requires m < SECOND && n < SECOND
    requires !(Fraction(m) <= Fraction(n)) && !(Fraction(n) <= Fraction(m))
    ensures Less(Fraction(m) + "Z", Fraction(n) + "Z") <==> m < n
  {
    var dm, dn := Print(m, 9), Print(n, 9);
    assert Fraction(m) == "." + Strip(dm) && Fraction(n) == "." + Strip(dn);
    PrefixUnderDot(Strip(dm), Strip(dn));
    PrefixUnderDot(Strip(dn), Strip(dm));
    StrippedOrder(dm, dn);
    assert Fraction(m) + "Z" == "." + (Strip(dm) + "Z") && Fraction(n) + "Z" == "." + (Strip(dn) + "Z");
    CommonPrefix(".", Strip(dm) + "Z", Strip(dn) + "Z");
    NinthPower();
    PrintOrder(m, n, 9);
  }

  lemma PrefixUnderDot(a: string, b: string)
    ensures a <= b ==> "." + a <= "." + b
  {}

  lemma StrippedOrder(a: string, b: string)
    requires |a| == |b| && !(Strip(a) <= Strip(b)) && !(Strip(b) <= Strip(a))
    ensures Less(Strip(a) + "Z", Strip(b) + "Z") <==> Less(a, b)
  {
    var x, y := Strip(a), Strip(b);
    var i := Diverge(x, y);
    assert (x + "Z")[..i] == x[..i] == y[..i] == (y + "Z")[..i];
    FirstDifference(x + "Z", y + "Z", i);
    assert a[..i] == x[..i] == y[..i] == b[..i];
    FirstDifference(a, b, i);
  }

  // The pairs of instants whose stored texts compare the wrong way round.
  predicate Reversed(a: Instant, b: Instant)
    requires InRange(a) && InRange(b)
  {
    && a / SECOND == b / SECOND
    && (Fraction(a % SECOND) < Fraction(b % SECOND) || Fraction(b % SECOND) < Fraction(a % SECOND))
  }

  lemma TextOrderIsTimeOrder(a: Instant, b: Instant)
    requires InRange(a) && InRange(b)
    ensures Leq(Format(a), Format(b)) <==> if Reversed(a, b) then b <= a else a <= b
  {
    var ca, cb := CivilOf(a / SECOND), CivilOf(b / SECOND);
    CivilOfInverse(a / SECOND);
    CivilOfInverse(b / SECOND);
    SecondsOrder(cb, ca);
    DateTimeOrder(cb, ca);
    var ta, tb := Fraction(a % SECOND) + "Z", Fraction(b % SECOND) + "Z";
    if ca == cb {
      CommonPrefix(DateTime(ca), tb, ta);
      FractionOrder(b % SECOND, a % SECOND);
      if Reversed(a, b) {
        FractionRoundTrip(a % SECOND);
        FractionRoundTrip(b % SECOND);
        assert a % SECOND != b % SECOND;
      }
    } else {
      HeadsDecide(DateTime(cb), DateTime(ca), tb, ta);
    }
  }

  // One instant as it is stored: the Unix second 10^9, and 50 milliseconds.
  lemma KnownText(c: Civil)
    requires c == Civil(2001, 9, 9, 1, 46, 40)
    ensures var t := SecondsOf(c) * SECOND + 50_000_000;
            InRange(t) && Format(t) == "2001-09-09T01:46:40.05Z"
  {
    hide DateTime, Fraction, CivilOf, SecondsOf;
    var t := SecondsOf(c) * SECOND + 50_000_000;
    SecondsInRange(c);
    CivilOfSeconds(c);
    assert t / SECOND == SecondsOf(c) && t % SECOND == 50_000_000;
    KnownDateTime(c);
    KnownFraction(50_000_000);
    assert Format(t) == "2001-09-09T01:46:40" + (".05" + "Z");
  }

  lemma TwoDigits(n: nat)
    requires n < 100
    ensures Print(n, 2) == [DigitChar(n / 10), DigitChar(n % 10)]
  {
    OneDigit(n / 10);
    assert Print(n, 2) == Print(n / 10, 1) + [DigitChar(n % 10)];
  }

  lemma OneDigit(n: nat)
    requires n < 10
    ensures Print(n, 1) == [DigitChar(n)]
  {
    assert Print(n, 1) == Print(n / 10, 0) + [DigitChar(n % 10)];
  }

  lemma KnownDateTime(c: Civil)
    requires c == Civil(2001, 9, 9, 1, 46, 40)
    ensures DateTime(c) == "2001-09-09T01:46:40"
  {
    TwoDigits(20);
    assert Print(200, 3) == "200" by { assert Print(200, 3) == Print(20, 2) + "0"; }
    assert Print(2001, 4) == "2001" by { assert Print(2001, 4) == Print(200, 3) + "1"; }
    TwoDigits(9);
    TwoDigits(1);
    TwoDigits(46);
    TwoDigits(40);
    hide Print;
    assert DateText(c) == "2001-09-09" && TimeText(c) == "01:46:40";
  }

  lemma KnownFraction(n: nat)
    requires n == 50_000_000
    ensures Fraction(n) == ".05"
  {
    TwoDigits(5);
    SeventhPower(7);
    PrintPadded(5, 2, 7);
    hide Print, Pow10;
    assert Print(5, 2) == "05" && 5 * Pow10(7) == n;
    StripPadded("05", 7);
  }

  lemma SeventhPower(k: nat)
    requires k == 7
    ensures Pow10(k) == 10_000_000
  {
    assert Pow10(k - 7) == 1;
    assert Pow10(k - 6) == 10 * Pow10(k - 7);
    assert Pow10(k - 5) == 10 * Pow10(k - 6);
    assert Pow10(k - 4) == 10 * Pow10(k - 5);
    assert Pow10(k - 3) == 10 * Pow10(k - 4);
    assert Pow10(k - 2) == 10 * Pow10(k - 3);
    assert Pow10(k - 1) == 10 * Pow10(k - 2);
  }

  lemma {:induction false} PrintPadded(n: nat, w: nat, k: nat)
    ensures Print(n * Pow10(k), w + k) == Print(n, w) + Zeros(k)
  {
    if k > 0 {
      PrintPadded(n, w, k - 1);
      TenTimes(n, Pow10(k - 1));
      PrintTens(n * Pow10(k - 1), w + k);
      assert Print(n, w) + Zeros(k) == Print(n, w) + Zeros(k - 1) + ['0'];
    }
  }

  lemma TenTimes(n: nat, p: nat)
    ensures n * (10 * p) == 10 * (n * p)
  {}

  lemma PrintTens(m: nat, w: nat)
    requires w > 0
    ensures Print(10 * m, w) == Print(m, w - 1) + ['0']
  {
    assert 10 * m / 10 == m && 10 * m % 10 == 0;
  }

  lemma {:induction false} StripPadded(s: string, k: nat)
    requires s != "" && s[|s| - 1] != '0'
    ensures Strip(s + Zeros(k)) == s
  {
    if k > 0 {
      assert (s + Zeros(k))[..|s| + k - 1] == s + Zeros(k - 1);
      StripPadded(s, k - 1);
    }
  }
}
