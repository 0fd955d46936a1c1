/** Fixed-width decimal fields: printing, reading, and their text order. */
module Decimal {
  import opened TextOrder

  predicate IsDigit(c: char) { '0' <= c <= '9' }

  predicate AllDigits(s: string) {
    forall i :: 0 <= i < |s| ==> IsDigit(s[i])
  }

  function DigitChar(d: nat): (c: char)
    requires d < 10
    ensures IsDigit(c)
  {
    '0' + d as char
  }

  function Pow10(w: nat): (p: nat)
    ensures p >= 1
  {
    if w == 0 then 1 else 10 * Pow10(w - 1)
  }

  // The last `w` decimal digits of `n`, most significant first.
  function Print(n: nat, w: nat): (s: string)
    ensures |s| == w && AllDigits(s)
  {
    if w == 0 then "" else Print(n / 10, w - 1) + [DigitChar(n % 10)]
  }

  function Value(s: string): (n: nat)
    requires AllDigits(s)
  {
    if s == "" then 0
    else Value(s[..|s| - 1]) * 10 + (s[|s| - 1] as int - '0' as int)
  }

  lemma {:induction false} ValueOfPrint(n: nat, w: nat)
    requires n < Pow10(w)
    ensures Value(Print(n, w)) == n
  {
    if w > 0 {
      ValueOfPrint(n / 10, w - 1);
      assert Print(n, w)[..w - 1] == Print(n / 10, w - 1);
    }
  }

  lemma {:induction false} PrintOfValue(s: string)
    requires AllDigits(s)
    ensures Value(s) < Pow10(|s|) && Print(Value(s), |s|) == s
  {
    if s != "" {
      var init := s[..|s| - 1];
      PrintOfValue(init);
      assert s == init + [s[|s| - 1]];
    }
  }

  lemma {:induction false} PrintOrder(m: nat, n: nat, w: nat)
    requires m < Pow10(w) && n < Pow10(w)
    ensures Less(Print(m, w), Print(n, w)) <==> m < n
    ensures Print(m, w) == Print(n, w) <==> m == n
  {
    ValueOfPrint(m, w);
    ValueOfPrint(n, w);
    if w > 0 {
      PrintOrder(m / 10, n / 10, w - 1);
      var hm, hn := Print(m / 10, w - 1), Print(n / 10, w - 1);
      if m / 10 == n / 10 {
        CommonPrefix(hm, [DigitChar(m % 10)], [DigitChar(n % 10)]);
      } else {
        HeadsDecide(hm, hn, [DigitChar(m % 10)], [DigitChar(n % 10)]);
      }
    }
  }
}
