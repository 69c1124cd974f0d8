/**
 * Proleptic Gregorian dates as Python's `datetime.date` counts them: a day is its
 * ordinal (0001-01-01 is day 1, a Monday), `weekday()` is 0 for Monday, and
 * `isoformat()` writes `YYYY-MM-DD`, the calendar date in extended format of
 * section 4.1.2.2 of ISO 8601:2004.
 */
module Calendar {
  import opened Text

  /** The ordinal of 9999-12-31, the last day `datetime.date` can hold. */
  const MaxOrdinal := 3652059

  /** A `date` value: its proleptic Gregorian ordinal, 0001-01-01 being day 1. */
  type DayNumber = n: int | 1 <= n <= MaxOrdinal witness 1

  predicate IsLeap(y: int)
  {
    y % 4 == 0 && (y % 100 != 0 || y % 400 == 0)
  }

  function DaysInYear(y: int): int
  {
    if IsLeap(y) then 366 else 365
  }

  function DaysInMonth(y: int, m: int): int
    requires 1 <= m <= 12
  {
    if m == 2 then (if IsLeap(y) then 29 else 28)
    else if m == 4 || m == 6 || m == 9 || m == 11 then 30
    else 31
  }

  /** Days in the months of year y before month m. */
  function DaysBeforeMonth(y: int, m: int): int
    requires 1 <= m <= 12
  {
    var base :=
      if m == 1 then 0 else if m == 2 then 31 else if m == 3 then 59
      else if m == 4 then 90 else if m == 5 then 120 else if m == 6 then 151
      else if m == 7 then 181 else if m == 8 then 212 else if m == 9 then 243
      else if m == 10 then 273 else if m == 11 then 304 else 334;
    base + (if m > 2 && IsLeap(y) then 1 else 0)
  }

  /** Days in the years before year y. */
  function DaysBeforeYear(y: int): int
    requires y >= 1
  {
    var p := y - 1;
    p * 365 + p / 4 - p / 100 + p / 400
  }

  /** A date `datetime.date(y, m, d)` accepts. */
  predicate ValidYmd(y: int, m: int, d: int)
  {
    1 <= y <= 9999 && 1 <= m <= 12 && 1 <= d <= DaysInMonth(y, m)
  }

  /** `date(y, m, d).toordinal()` */
  function Ordinal(y: int, m: int, d: int): int
    requires ValidYmd(y, m, d)
  {
    DaysBeforeYear(y) + DaysBeforeMonth(y, m) + d
  }

  /** `date.fromordinal(n).weekday()`: 0 is Monday, 6 is Sunday. */
  function Weekday(n: int): int
  {
    (n + 6) % 7
  }

  lemma DaysBeforeYearStep(y: int)
    requires y >= 1
    ensures DaysBeforeYear(y + 1) == DaysBeforeYear(y) + DaysInYear(y)
  {
    var p := y - 1;
    assert (p + 1) / 4 - p / 4 == (if y % 4 == 0 then 1 else 0);
    assert (p + 1) / 100 - p / 100 == (if y % 100 == 0 then 1 else 0);
    assert (p + 1) / 400 - p / 400 == (if y % 400 == 0 then 1 else 0);
  }

  lemma {:induction false} DaysBeforeYearMonotone(a: int, b: int)
    requires 1 <= a <= b
    ensures DaysBeforeYear(a) <= DaysBeforeYear(b)
    decreases b - a
  {
    if a < b {
      DaysBeforeYearStep(a);
      DaysBeforeYearMonotone(a + 1, b);
    }
  }

  /** Walks year by year from year y to the year holding day k (counted from 1 at y's first day). */
  function YearSearch(y: int, k: int): (r: (int, int))
    requires y >= 1 && k >= 1
    ensures r.0 >= y && 1 <= r.1 <= DaysInYear(r.0)
    ensures DaysBeforeYear(r.0) + r.1 == DaysBeforeYear(y) + k
    decreases k
  {
    if k <= DaysInYear(y) then (y, k)
    else
      DaysBeforeYearStep(y);
      YearSearch(y + 1, k - DaysInYear(y))
  }

  /** Walks month by month from month m to the month holding day k of year y. */
  function MonthSearch(y: int, m: int, k: int): (r: (int, int))
    requires 1 <= m <= 12 && 1 <= k && DaysBeforeMonth(y, m) + k <= DaysInYear(y)
    ensures m <= r.0 <= 12 && 1 <= r.1 <= DaysInMonth(y, r.0)
    ensures DaysBeforeMonth(y, r.0) + r.1 == DaysBeforeMonth(y, m) + k
    decreases 12 - m
  {
    if k <= DaysInMonth(y, m) then (m, k)
    else MonthSearch(y, m + 1, k - DaysInMonth(y, m))
  }

  /** `date.fromordinal(n)` as (year, month, day). */
  function FromOrdinal(n: int): (ymd: (int, int, int))
    requires 1 <= n <= MaxOrdinal
    ensures ValidYmd(ymd.0, ymd.1, ymd.2)
    ensures Ordinal(ymd.0, ymd.1, ymd.2) == n
  {
    var yk := YearSearch(1, n);
    assert yk.0 <= 9999 by {
      if yk.0 >= 10000 {
        DaysBeforeYearMonotone(10000, yk.0);
      }
    }
    var md := MonthSearch(yk.0, 1, yk.1);
    (yk.0, md.0, md.1)
  }

  /** `date.fromordinal(n).isoformat()` */
  function IsoFormat(n: int): string
    requires 1 <= n <= MaxOrdinal
  {
    var ymd := FromOrdinal(n);
    YmdText(ymd.0, ymd.1, ymd.2)
  }

  /** `YYYY-MM-DD` with zero-padded fields. */
  function YmdText(y: nat, m: nat, d: nat): string
  {
    FixedDigits(y, 4) + "-" + FixedDigits(m, 2) + "-" + FixedDigits(d, 2)
  }

  /** The regular expression `^\d{4}-\d{2}-\d{2}$` on an already stripped string. */
  predicate IsoShape(s: string)
  {
    |s| == 10 && AllDigits(s[..4]) && s[4] == '-' && AllDigits(s[5..7]) && s[7] == '-' && AllDigits(s[8..])
  }

  /** The three numbers `strptime(s, "%Y-%m-%d")` reads from a string of that shape. */
  function YmdOf(s: string): (int, int, int)
    requires IsoShape(s)
  {
    (DigitsValue(s[..4]), DigitsValue(s[5..7]), DigitsValue(s[8..]))
  }

  /** Every ISO string the model writes has the accepted shape and reads back as the same date. */
  lemma IsoFormatRoundTrip(n: int)
    requires 1 <= n <= MaxOrdinal
    ensures IsoShape(IsoFormat(n))
    ensures YmdOf(IsoFormat(n)) == FromOrdinal(n)
  {
    var ymd := FromOrdinal(n);
    YmdTextRoundTrip(ymd.0, ymd.1, ymd.2);
  }

  /** The fields of a valid date survive writing and reading back. */
  lemma YmdTextRoundTrip(y: int, m: int, d: int)
    requires ValidYmd(y, m, d)
    ensures IsoShape(YmdText(y, m, d))
    ensures YmdOf(YmdText(y, m, d)) == (y, m, d)
  {
    var ys, ms, ds := FixedDigits(y, 4), FixedDigits(m, 2), FixedDigits(d, 2);
    var s := YmdText(y, m, d);
    assert s[..4] == ys && s[5..7] == ms && s[8..] == ds;
    assert Pow10(4) == 10000 && Pow10(2) == 100;
    FixedDigitsRoundTrip(y, 4);
    FixedDigitsRoundTrip(m, 2);
    FixedDigitsRoundTrip(d, 2);
  }

  /** A string `strptime(s, "%Y-%m-%d")` accepts: the ISO shape and a real date. */
  predicate IsCalendarDate(s: string)
  {
    IsoShape(s) && ValidYmd(YmdOf(s).0, YmdOf(s).1, YmdOf(s).2)
  }

  lemma IsoFormatIsCalendarDate(n: int)
    requires 1 <= n <= MaxOrdinal
    ensures IsCalendarDate(IsoFormat(n))
  {
    IsoFormatRoundTrip(n);
  }
}
