/**
 * UTC calendar dates for epoch seconds, and their `%Y%m%d` rendering, as
 * `datetime.utcnow().strftime` gives them for the rotation file names of
 * lo99ing/handlers.py:67 and 113-114. Instants are counted from 1970-01-01.
 */
module Calendar {

  const SecondsPerDay: nat := 86400
  const EpochYear: nat := 1970

  datatype Date = Date(year: nat, month: nat, day: nat)

  predicate IsLeap(y: nat) {
    y % 4 == 0 && (y % 100 != 0 || y % 400 == 0)
  }

  function YearLength(y: nat): nat {
    if IsLeap(y) then 366 else 365
  }

  function MonthLength(y: nat, m: nat): nat
    requires 1 <= m <= 12
  {
    if m == 2 then (if IsLeap(y) then 29 else 28)
    else if m == 4 || m == 6 || m == 9 || m == 11 then 30
    else 31
  }

  predicate ValidDate(d: Date) {
    d.year >= EpochYear && 1 <= d.month <= 12 && 1 <= d.day <= MonthLength(d.year, d.month)
  }

  /** Days from 1970-01-01 to January 1st of year `y`. */
  function DaysBeforeYear(y: nat): nat
    requires y >= EpochYear
    decreases y
  {
    if y == EpochYear then 0 else DaysBeforeYear(y - 1) + YearLength(y - 1)
  }

  /** Days from January 1st to the first of month `m`. */
  function DaysBeforeMonth(y: nat, m: nat): nat
    requires 1 <= m <= 12
  {
    if m == 1 then 0 else DaysBeforeMonth(y, m - 1) + MonthLength(y, m - 1)
  }

  /** December ends the year. */
  lemma DecemberEndsYear(y: nat)
    ensures DaysBeforeMonth(y, 12) + MonthLength(y, 12) == YearLength(y)
  {
    var feb := if IsLeap(y) then 29 else 28;
    assert DaysBeforeMonth(y, 2) == 31;
    assert DaysBeforeMonth(y, 3) == 31 + feb;
    assert DaysBeforeMonth(y, 4) == 31 + feb + 31;
    assert DaysBeforeMonth(y, 5) == 31 + feb + 31 + 30;
    assert DaysBeforeMonth(y, 6) == 31 + feb + 31 + 30 + 31;
    assert DaysBeforeMonth(y, 7) == 31 + feb + 31 + 30 + 31 + 30;
    assert DaysBeforeMonth(y, 8) == 31 + feb + 31 + 30 + 31 + 30 + 31;
    assert DaysBeforeMonth(y, 9) == 31 + feb + 31 + 30 + 31 + 30 + 31 + 31;
    assert DaysBeforeMonth(y, 10) == 31 + feb + 31 + 30 + 31 + 30 + 31 + 31 + 30;
    assert DaysBeforeMonth(y, 11) == 31 + feb + 31 + 30 + 31 + 30 + 31 + 31 + 30 + 31;
    assert DaysBeforeMonth(y, 12) == 31 + feb + 31 + 30 + 31 + 30 + 31 + 31 + 30 + 31 + 30;
  }

  /** Months never run past the end of their year. */
  lemma MonthsFillYear(y: nat, m: nat)
    requires 1 <= m <= 12
    ensures DaysBeforeMonth(y, m) + MonthLength(y, m) <= YearLength(y)
  {
    DecemberEndsYear(y);
    if m < 12 {
      DaysBeforeMonthMonotonic(y, m + 1, 12);
    }
  }

  /** The day number (days since 1970-01-01) of a date. */
  function DayNumber(d: Date): nat
    requires ValidDate(d)
  {
    DaysBeforeYear(d.year) + DaysBeforeMonth(d.year, d.month) + d.day - 1
  }

  /** The month and day of day `n` (counted from 0) of year `y`, searching from month `m`. */
  function MonthDay(y: nat, m: nat, n: nat): (d: Date)
    requires 1 <= m <= 12
    requires DaysBeforeMonth(y, m) <= n < YearLength(y)
    ensures d.year == y && m <= d.month <= 12
    ensures 1 <= d.month <= 12 && 1 <= d.day <= MonthLength(y, d.month)
    ensures DaysBeforeMonth(y, d.month) + d.day - 1 == n
    decreases 12 - m
  {
    MonthsFillYear(y, m);
    DecemberEndsYear(y);
    if n < DaysBeforeMonth(y, m) + MonthLength(y, m) then
      Date(y, m, n - DaysBeforeMonth(y, m) + 1)
    else
      MonthDay(y, m + 1, n)
  }

  /** The date of day `n` of the calendar, searching from year `y`. */
  function CivilFrom(y: nat, n: nat): (d: Date)
    requires y >= EpochYear && DaysBeforeYear(y) <= n
    ensures ValidDate(d) && DayNumber(d) == n
    decreases n - DaysBeforeYear(y)
  {
    if n - DaysBeforeYear(y) < YearLength(y) then
      MonthDay(y, 1, n - DaysBeforeYear(y))
    else
      CivilFrom(y + 1, n)
  }

  /** The UTC date of day number `n`. */
  function CivilFromDays(n: nat): (d: Date)
    ensures ValidDate(d) && DayNumber(d) == n
  {
    CivilFrom(EpochYear, n)
  }

  /** The UTC date of an instant given in epoch seconds. */
  function DateOf(t: nat): (d: Date)
    ensures ValidDate(d) && DayNumber(d) == t / SecondsPerDay
  {
    CivilFromDays(t / SecondsPerDay)
  }

  lemma {:induction false} DaysBeforeYearMonotonic(a: nat, b: nat)
    requires EpochYear <= a <= b
    ensures DaysBeforeYear(a) + (if a < b then YearLength(a) else 0) <= DaysBeforeYear(b)
    decreases b - a
  {
    if a < b {
      DaysBeforeYearMonotonic(a + 1, b);
    }
  }

  lemma {:induction false} DaysBeforeMonthMonotonic(y: nat, a: nat, b: nat)
    requires 1 <= a <= b <= 12
    ensures DaysBeforeMonth(y, a) + (if a < b then MonthLength(y, a) else 0) <= DaysBeforeMonth(y, b)
    decreases b - a
  {
    if a < b {
      DaysBeforeMonthMonotonic(y, a + 1, b);
    }
  }

  predicate Before(d1: Date, d2: Date) {
    d1.year < d2.year
    || (d1.year == d2.year && d1.month < d2.month)
    || (d1.year == d2.year && d1.month == d2.month && d1.day < d2.day)
  }

  /** Day numbers follow the calendar order of dates. */
  lemma DayNumberOrdered(d1: Date, d2: Date)
    requires ValidDate(d1) && ValidDate(d2)
    requires Before(d1, d2)
    ensures DayNumber(d1) < DayNumber(d2)
  {
    if d1.year < d2.year {
      DaysBeforeYearMonotonic(d1.year, d2.year);
      MonthsFillYear(d1.year, d1.month);
    } else if d1.month < d2.month {
      DaysBeforeMonthMonotonic(d1.year, d1.month, d2.month);
    }
  }

  /** Distinct dates have distinct day numbers. */
  lemma DayNumberInjective(d1: Date, d2: Date)
    requires ValidDate(d1) && ValidDate(d2)
    requires DayNumber(d1) == DayNumber(d2)
    ensures d1 == d2
  {
    if Before(d1, d2) {
      DayNumberOrdered(d1, d2);
    } else if Before(d2, d1) {
      DayNumberOrdered(d2, d1);
    }
  }

  /** Converting a valid date to its day number and back gives the same date. */
  lemma CivilRoundTrip(d: Date)
    requires ValidDate(d)
    ensures CivilFromDays(DayNumber(d)) == d
  {
    DayNumberInjective(CivilFromDays(DayNumber(d)), d);
  }

  /** `n` rendered in decimal with at least `width` digits, zero-padded on the left. */
  function Digits(n: nat, width: nat): (r: string)
    ensures |r| >= width
    ensures forall i :: 0 <= i < |r| ==> '0' <= r[i] <= '9'
    decreases n + width
  {
    if n == 0 && width == 0 then ""
    else Digits(n / 10, if width > 0 then width - 1 else 0) + [('0' as int + n % 10) as char]
  }

  function Power10(k: nat): nat {
    if k == 0 then 1 else 10 * Power10(k - 1)
  }

  /** A decimal string's value. */
  function DecimalValue(s: string): nat
    requires forall i :: 0 <= i < |s| ==> '0' <= s[i] <= '9'
  {
    if s == [] then 0 else 10 * DecimalValue(s[..|s| - 1]) + (s[|s| - 1] as int - '0' as int)
  }

  /** A number below `10^width` takes exactly `width` digits, and reading them back gives it. */
  lemma {:induction false} DigitsRoundTrip(n: nat, width: nat)
    requires n < Power10(width)
    ensures |Digits(n, width)| == width
    ensures DecimalValue(Digits(n, width)) == n
    decreases width
  {
    if width > 0 {
      DigitsRoundTrip(n / 10, width - 1);
      var r := Digits(n, width);
      assert r[..|r| - 1] == Digits(n / 10, width - 1);
    }
  }

  /** `strftime('%Y%m%d')`. */
  function YYYYMMDD(d: Date): (r: string)
    ensures forall i :: 0 <= i < |r| ==> '0' <= r[i] <= '9'
  {
    Digits(d.year, 4) + Digits(d.month, 2) + Digits(d.day, 2)
  }

  /** Reading back a rendered date gives the date (years up to 9999, the largest `datetime` allows). */
  lemma DateStringRoundTrip(d: Date)
    requires ValidDate(d) && d.year <= 9999
    ensures |YYYYMMDD(d)| == 8
    ensures DecimalValue(YYYYMMDD(d)[..4]) == d.year
    ensures DecimalValue(YYYYMMDD(d)[4..6]) == d.month
    ensures DecimalValue(YYYYMMDD(d)[6..]) == d.day
  {
    assert Power10(2) == 100;
    assert Power10(4) == 10000;
    DigitsRoundTrip(d.year, 4);
    DigitsRoundTrip(d.month, 2);
    DigitsRoundTrip(d.day, 2);
    DateFields(Digits(d.year, 4), Digits(d.month, 2), Digits(d.day, 2));
  }

  /** The three fields of an 8-character date string sit at 0..4, 4..6 and 6..8. */
  lemma DateFields(y: string, m: string, d: string)
    requires |y| == 4 && |m| == 2 && |d| == 2
    ensures (y + m + d)[..4] == y && (y + m + d)[4..6] == m && (y + m + d)[6..] == d
  {
  }

  /** Different dates (up to year 9999) are rendered differently. */
  lemma DateStringInjective(d1: Date, d2: Date)
    requires ValidDate(d1) && d1.year <= 9999
    requires ValidDate(d2) && d2.year <= 9999
    requires YYYYMMDD(d1) == YYYYMMDD(d2)
    ensures d1 == d2
  {
    DateStringRoundTrip(d1);
    DateStringRoundTrip(d2);
  }
}
