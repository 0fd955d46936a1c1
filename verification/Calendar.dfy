/**
 The proleptic Gregorian calendar from 0000-01-01 to 9999-12-31, tied to a count of
 seconds. Leap years follow Appendix C of RFC 3339.
 */
module Calendar {

  datatype Civil = Civil(year: nat, month: nat, day: nat, hour: nat, minute: nat, second: nat)

  const DAY: nat := 86400
  // Seconds from the start of year 0 to the start of year 10000.
  const SECONDS_LIMIT: nat := 3652425 * DAY

  predicate IsLeap(year: nat) {
    year % 4 == 0 && (year % 100 != 0 || year % 400 == 0)
  }

  function DaysInYear(year: nat): nat {
    if IsLeap(year) then 366 else 365
  }

  function DaysInMonth(year: nat, month: nat): nat
    requires 1 <= month <= 12
  {
    if month == 2 then (if IsLeap(year) then 29 else 28)
    else if month in {4, 6, 9, 11} then 30
    else 31
  }

  predicate ValidCivil(c: Civil) {
    && c.year <= 9999 && 1 <= c.month <= 12
    && 1 <= c.day <= DaysInMonth(c.year, c.month)
    && c.hour < 24 && c.minute < 60 && c.second < 60
  }

  function DaysBeforeYear(year: nat): nat {
    if year == 0 then 0 else DaysBeforeYear(year - 1) + DaysInYear(year - 1)
  }

  function DaysBeforeMonth(year: nat, month: nat): nat
    requires 1 <= month <= 13
  {
    if month == 1 then 0 else DaysBeforeMonth(year, month - 1) + DaysInMonth(year, month - 1)
  }

  // The day count has the usual closed form, so year 10000 starts at SECONDS_LIMIT.
  lemma {:induction false} DaysBeforeYearClosed(year: nat)
    ensures DaysBeforeYear(year) == 365 * year + (year + 3) / 4 - (year + 99) / 100 + (year + 399) / 400
  {
    if year > 0 {
      DaysBeforeYearClosed(year - 1);
      CountStep4(year - 1);
      CountStep100(year - 1);
      CountStep400(year - 1);
      LeapDivisors(year - 1);
    }
  }

  lemma CountStep4(n: nat)
    ensures (n + 4) / 4 == (n + 3) / 4 + (if n % 4 == 0 then 1 else 0)
  {}

  lemma CountStep100(n: nat)
    ensures (n + 100) / 100 == (n + 99) / 100 + (if n % 100 == 0 then 1 else 0)
  {}

  lemma CountStep400(n: nat)
    ensures (n + 400) / 400 == (n + 399) / 400 + (if n % 400 == 0 then 1 else 0)
  {}

  lemma LeapDivisors(n: nat)
    ensures n % 400 == 0 ==> n % 100 == 0
    ensures n % 100 == 0 ==> n % 4 == 0
  {
    MultipleOf100(4 * (n / 400));
    MultipleOf4(25 * (n / 100));
  }

  lemma MultipleOf100(k: nat)
    ensures 100 * k % 100 == 0
  {}

  lemma MultipleOf4(k: nat)
    ensures 4 * k % 4 == 0
  {}

  lemma {:induction false} DaysBeforeYearMonotone(y: nat, z: nat)
    requires y < z
    ensures DaysBeforeYear(y) + DaysInYear(y) <= DaysBeforeYear(z)
  {
    if y + 1 < z {
      DaysBeforeYearMonotone(y, z - 1);
    }
  }

  lemma {:induction false} DaysBeforeMonthMonotone(year: nat, m: nat, n: nat)
    requires 1 <= m < n <= 13
    ensures DaysBeforeMonth(year, m) + DaysInMonth(year, m) <= DaysBeforeMonth(year, n)
  {
    if m + 1 < n {
      DaysBeforeMonthMonotone(year, m, n - 1);
    }
  }

  lemma TwelveMonths(year: nat)
    ensures DaysBeforeMonth(year, 13) == DaysInYear(year)
  {
    assert DaysBeforeMonth(year, 2) == 31;
    assert DaysBeforeMonth(year, 3) == 31 + DaysInMonth(year, 2);
    assert DaysBeforeMonth(year, 5) == DaysBeforeMonth(year, 3) + 61;
    assert DaysBeforeMonth(year, 7) == DaysBeforeMonth(year, 5) + 61;
    assert DaysBeforeMonth(year, 9) == DaysBeforeMonth(year, 7) + 62;
    assert DaysBeforeMonth(year, 11) == DaysBeforeMonth(year, 9) + 61;
    assert DaysBeforeMonth(year, 13) == DaysBeforeMonth(year, 11) + 61;
  }

  function SecondsOf(c: Civil): nat
    requires ValidCivil(c)
  {
    (DaysBeforeYear(c.year) + DaysBeforeMonth(c.year, c.month) + c.day - 1) * DAY
    + c.hour * 3600 + c.minute * 60 + c.second
  }

  // The year that holds day `d`, counted from the start of `year`, and the day within it.
  function FindYear(d: nat, year: nat): (r: (nat, nat))
    ensures r.1 < DaysInYear(r.0)
    ensures DaysBeforeYear(year) + d == DaysBeforeYear(r.0) + r.1
    decreases d
  {
    if d < DaysInYear(year) then (year, d) else FindYear(d - DaysInYear(year), year + 1)
  }

  function FindMonth(year: nat, d: nat, month: nat): (r: (nat, nat))
    requires 1 <= month <= 12
    requires DaysBeforeMonth(year, month) + d < DaysBeforeMonth(year, 13)
    ensures 1 <= r.0 <= 12 && r.1 < DaysInMonth(year, r.0)
    ensures DaysBeforeMonth(year, month) + d == DaysBeforeMonth(year, r.0) + r.1
    decreases 12 - month
  {
    if d < DaysInMonth(year, month) then (month, d)
    else FindMonth(year, d - DaysInMonth(year, month), month + 1)
  }

  function CivilOf(s: nat): (c: Civil)
  {
    var (year, dayOfYear) := FindYear(s / DAY, 0);
    TwelveMonths(year);
    var (month, dayOfMonth) := FindMonth(year, dayOfYear, 1);
    Civil(year, month, dayOfMonth + 1, s % DAY / 3600, s % 3600 / 60, s % 60)
  }

  // The civil fields of a second are valid and count back to that second.
  lemma CivilOfInverse(s: nat)
    requires s < SECONDS_LIMIT
    ensures ValidCivil(CivilOf(s)) && SecondsOf(CivilOf(s)) == s
  {
    var (year, dayOfYear) := FindYear(s / DAY, 0);
    DaysBeforeYearClosed(10000);
    if year >= 10000 {
      if year > 10000 { DaysBeforeYearMonotone(10000, year); }
      assert false;
    }
    TimeOfDay(s);
  }

  lemma TimeOfDay(s: nat)
    ensures s == s / DAY * DAY + s % DAY / 3600 * 3600 + s % 3600 / 60 * 60 + s % 60
    ensures s % DAY / 3600 < 24 && s % 3600 / 60 < 60
  {
    var day, rest := s / DAY, s % DAY;
    var hour, left := rest / 3600, rest % 3600;
    assert s == 3600 * (24 * day + hour) + left;
    HourLeft(24 * day + hour, left);
    assert s == 60 * (60 * (24 * day + hour) + left / 60) + left % 60;
    MinuteLeft(60 * (24 * day + hour) + left / 60, left % 60);
  }

  lemma HourLeft(n: nat, left: nat)
    requires left < 3600
    ensures (3600 * n + left) % 3600 == left
  {}

  lemma MinuteLeft(n: nat, left: nat)
    requires left < 60
    ensures (60 * n + left) % 60 == left
  {}

  predicate Before(a: Civil, b: Civil) {
    if a.year != b.year then a.year < b.year
    else if a.month != b.month then a.month < b.month
    else if a.day != b.day then a.day < b.day
    else if a.hour != b.hour then a.hour < b.hour
    else if a.minute != b.minute then a.minute < b.minute
    else a.second < b.second
  }

  lemma SecondsMonotone(a: Civil, b: Civil)
    requires ValidCivil(a) && ValidCivil(b) && Before(a, b)
    ensures SecondsOf(a) < SecondsOf(b)
  {
    if a.year < b.year {
      DaysBeforeYearMonotone(a.year, b.year);
    } else if a.month < b.month {
      DaysBeforeMonthMonotone(a.year, a.month, b.month);
    }
    TwelveMonths(a.year);
    if a.month < 12 { DaysBeforeMonthMonotone(a.year, a.month, 13); }
  }

  // Counting seconds loses nothing, and the order of the fields is the order of time.
  lemma SecondsOrder(a: Civil, b: Civil)
    requires ValidCivil(a) && ValidCivil(b)
    ensures SecondsOf(a) < SecondsOf(b) <==> Before(a, b)
    ensures SecondsOf(a) == SecondsOf(b) <==> a == b
  {
    if Before(a, b) {
      SecondsMonotone(a, b);
    } else if Before(b, a) {
      SecondsMonotone(b, a);
    }
  }

  lemma DayInRange(c: Civil)
    requires ValidCivil(c)
    ensures DaysBeforeYear(c.year) + DaysBeforeMonth(c.year, c.month) + c.day <= 3652425
  {
    hide IsLeap, DaysInMonth;
    DaysBeforeYearClosed(10000);
    DaysBeforeYearMonotone(c.year, 10000);
    TwelveMonths(c.year);
    DaysBeforeMonthMonotone(c.year, c.month, 13);
  }

  lemma SecondsInRange(c: Civil)
    requires ValidCivil(c)
    ensures SecondsOf(c) < SECONDS_LIMIT
  {
    hide DaysBeforeYear, DaysBeforeMonth, DaysInMonth;
    DayInRange(c);
  }

  lemma CivilOfSeconds(c: Civil)
    requires ValidCivil(c)
    ensures CivilOf(SecondsOf(c)) == c
  {
    hide CivilOf, SecondsOf, ValidCivil;
    SecondsInRange(c);
    CivilOfInverse(SecondsOf(c));
    SecondsOrder(CivilOf(SecondsOf(c)), c);
  }

  // The days before each month, as tabulated.
  lemma MonthTable(year: nat)
    ensures var leap := if IsLeap(year) then 1 else 0;
            && DaysBeforeMonth(year, 1) == 0 && DaysBeforeMonth(year, 2) == 31 && DaysBeforeMonth(year, 3) == 59 + leap
            && DaysBeforeMonth(year, 4) == 90 + leap && DaysBeforeMonth(year, 5) == 120 + leap && DaysBeforeMonth(year, 6) == 151 + leap
            && DaysBeforeMonth(year, 7) == 181 + leap && DaysBeforeMonth(year, 8) == 212 + leap && DaysBeforeMonth(year, 9) == 243 + leap
            && DaysBeforeMonth(year, 10) == 273 + leap && DaysBeforeMonth(year, 11) == 304 + leap && DaysBeforeMonth(year, 12) == 334 + leap
            && DaysBeforeMonth(year, 13) == 365 + leap
  {
    FirstMonths(year);
    assert DaysBeforeMonth(year, 8) == DaysBeforeMonth(year, 7) + 31;
    assert DaysBeforeMonth(year, 9) == DaysBeforeMonth(year, 8) + 31;
    assert DaysBeforeMonth(year, 10) == DaysBeforeMonth(year, 9) + 30;
    assert DaysBeforeMonth(year, 11) == DaysBeforeMonth(year, 10) + 31;
    assert DaysBeforeMonth(year, 12) == DaysBeforeMonth(year, 11) + 30;
    assert DaysBeforeMonth(year, 13) == DaysBeforeMonth(year, 12) + 31;
  }

  lemma FirstMonths(year: nat)
    ensures var leap := if IsLeap(year) then 1 else 0;
            && DaysBeforeMonth(year, 2) == 31 && DaysBeforeMonth(year, 3) == 59 + leap && DaysBeforeMonth(year, 4) == 90 + leap
            && DaysBeforeMonth(year, 5) == 120 + leap && DaysBeforeMonth(year, 6) == 151 + leap && DaysBeforeMonth(year, 7) == 181 + leap
  {
    assert DaysBeforeMonth(year, 2) == DaysBeforeMonth(year, 1) + 31;
    assert DaysBeforeMonth(year, 3) == DaysBeforeMonth(year, 2) + DaysInMonth(year, 2);
    assert DaysBeforeMonth(year, 4) == DaysBeforeMonth(year, 3) + 31;
    assert DaysBeforeMonth(year, 5) == DaysBeforeMonth(year, 4) + 30;
    assert DaysBeforeMonth(year, 6) == DaysBeforeMonth(year, 5) + 31;
    assert DaysBeforeMonth(year, 7) == DaysBeforeMonth(year, 6) + 30;
  }

  // The Unix second 0, counted from the start of year 0.
  const EPOCH: nat := 62_167_219_200

  // Dates whose Unix seconds are well known: 0, 10^9, 2^31 - 1, and the leap day of 2000.
  lemma KnownSeconds(c: Civil)
    ensures c == Civil(1970, 1, 1, 0, 0, 0) ==> SecondsOf(c) == EPOCH
    ensures c == Civil(2001, 9, 9, 1, 46, 40) ==> SecondsOf(c) == EPOCH + 1_000_000_000
    ensures c == Civil(2038, 1, 19, 3, 14, 7) ==> SecondsOf(c) == EPOCH + 0x7FFF_FFFF
    ensures c == Civil(2000, 2, 29, 0, 0, 0) ==> SecondsOf(c) == EPOCH + 951_782_400
  {
    MonthTable(c.year);
    DaysBeforeYearClosed(c.year);
    hide DaysBeforeMonth, DaysBeforeYear;
  }
}
