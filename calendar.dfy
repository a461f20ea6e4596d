/**
 * The proleptic Gregorian calendar on integer milliseconds since
 * 1970-01-01T00:00Z, as far as the pages need it: the instant a month
 * starts, and JavaScript's `new Date(year, month, 1)` with a month index
 * that may run below 0 or past 11.
 */
module Calendar {
  import opened Domain

  /** A month of a year; `month` is JavaScript's 0-based index (0 = January). */
  datatype YearMonth = YearMonth(year: int, month: int)

  predicate ValidMonth(ym: YearMonth) {
    0 <= ym.month < 12
  }

  predicate IsLeap(y: int) {
    (y % 4 == 0 && y % 100 != 0) || y % 400 == 0
  }

  function DaysInMonth(ym: YearMonth): (r: int)
    requires ValidMonth(ym)
    ensures 28 <= r <= 31
  {
    if ym.month == 1 then (if IsLeap(ym.year) then 29 else 28)
    else if ym.month in {3, 5, 8, 10} then 30
    else 31
  }

  /** Days from 0000-01-01 to January 1st of year `y` (year 0 is a leap year). */
  function DaysBeforeYear(y: int): int {
    365 * y + (y + 3) / 4 - (y + 99) / 100 + (y + 399) / 400
  }

  /** Days from January 1st to the first of month `m` of year `y`. */
  function DaysBeforeMonth(y: int, m: int): int
    requires 0 <= m < 12
  {
    [0, 31, 59, 90, 120, 151, 181, 212, 243, 273, 304, 334][m] + (if m >= 2 && IsLeap(y) then 1 else 0)
  }

  /** Days from 0000-01-01 to the first day of `ym`. */
  function DayNumber(ym: YearMonth): int
    requires ValidMonth(ym)
  {
    DaysBeforeYear(ym.year) + DaysBeforeMonth(ym.year, ym.month)
  }

  /** Days from 0000-01-01 to 1970-01-01. */
  const EPOCH_DAY: int := 719_528

  /** The instant, in milliseconds, at which `ym` begins (its first day at 00:00). */
  function MonthStart(ym: YearMonth): Time
    requires ValidMonth(ym)
  {
    (DayNumber(ym) - EPOCH_DAY) * DAY_MS
  }

  /** The month after `ym`. */
  function Next(ym: YearMonth): (r: YearMonth)
    requires ValidMonth(ym)
    ensures ValidMonth(r)
  {
    if ym.month == 11 then YearMonth(ym.year + 1, 0) else YearMonth(ym.year, ym.month + 1)
  }

  /**
   * The month `new Date(y, m, 1)` denotes: a month index outside 0..11
   * moves into a neighbouring year.
   */
  function Normalize(y: int, m: int): (r: YearMonth)
    ensures ValidMonth(r)
    ensures 12 * r.year + r.month == 12 * y + m
  {
    YearMonth(y + m / 12, m % 12)
  }

  // Each leap-year quotient `(y + d - 1) / d` grows by one in exactly the
  // years `d` divides; one lemma per divisor keeps the arithmetic linear.

  lemma FourStep(y: int)
    ensures (y + 4) / 4 == (y + 3) / 4 + (if y % 4 == 0 then 1 else 0)
  {
    var q, r := y / 4, y % 4;
    assert y == 4 * q + r && 0 <= r < 4;
    assert (y + 4) / 4 == q + 1;
    if r == 0 {
      assert (y + 3) / 4 == q;
    } else {
      assert (y + 3) / 4 == q + 1;
    }
  }

  lemma CenturyStep(y: int)
    ensures (y + 100) / 100 == (y + 99) / 100 + (if y % 100 == 0 then 1 else 0)
    ensures y % 100 == 0 ==> y % 4 == 0
  {
    var q, r := y / 100, y % 100;
    assert y == 100 * q + r && 0 <= r < 100;
    assert (y + 100) / 100 == q + 1;
    if r == 0 {
      assert (y + 99) / 100 == q;
      assert y == 4 * (25 * q);
    } else {
      assert (y + 99) / 100 == q + 1;
    }
  }

  lemma QuadCenturyStep(y: int)
    ensures (y + 400) / 400 == (y + 399) / 400 + (if y % 400 == 0 then 1 else 0)
    ensures y % 400 == 0 ==> y % 100 == 0
  {
    var q, r := y / 400, y % 400;
    assert y == 400 * q + r && 0 <= r < 400;
    assert (y + 400) / 400 == q + 1;
    if r == 0 {
      assert (y + 399) / 400 == q;
      assert y == 100 * (4 * q);
    } else {
      assert (y + 399) / 400 == q + 1;
    }
  }

  /** A year has 366 days when it is a leap year and 365 otherwise. */
  lemma YearLength(y: int)
    ensures DaysBeforeYear(y + 1) - DaysBeforeYear(y) == if IsLeap(y) then 366 else 365
  {
    FourStep(y);
    CenturyStep(y);
    QuadCenturyStep(y);
  }

  /** The month table and the month lengths agree: a month is as long as the gap to the next. */
  lemma MonthLength(ym: YearMonth)
    requires ValidMonth(ym)
    ensures DayNumber(Next(ym)) == DayNumber(ym) + DaysInMonth(ym)
  {
    if ym.month == 11 {
      YearLength(ym.year);
    }
  }

  /** Months begin strictly later the later they are. */
  lemma MonthStartAdvances(ym: YearMonth)
    requires ValidMonth(ym)
    ensures MonthStart(Next(ym)) == MonthStart(ym) + DaysInMonth(ym) * DAY_MS
    ensures MonthStart(ym) < MonthStart(Next(ym))
  {
    MonthLength(ym);
    assert MonthStart(Next(ym)) == (DayNumber(ym) - EPOCH_DAY) * DAY_MS + DaysInMonth(ym) * DAY_MS;
  }

  /** The epoch and a second known instant fix the origin and the leap-year rule. */
  lemma KnownInstants()
    ensures MonthStart(YearMonth(1970, 0)) == 0
    ensures MonthStart(YearMonth(2000, 0)) == 946_684_800_000
    ensures MonthStart(YearMonth(2024, 2)) == 1_709_251_200_000
  {
  }

  /** Stepping the month index back by one and then forward by one returns to the same month. */
  lemma NextOfNormalize(y: int, m: int)
    ensures Next(Normalize(y, m - 1)) == Normalize(y, m)
  {
    var p := Normalize(y, m - 1);
    var q := Normalize(y, m);
    assert 12 * q.year + q.month == 12 * p.year + p.month + 1;
    if p.month == 11 {
      assert 12 * q.year + q.month == 12 * (p.year + 1);
      assert q.year == p.year + 1 && q.month == 0;
    } else {
      assert 12 * q.year + q.month == 12 * p.year + (p.month + 1);
      assert q.year == p.year && q.month == p.month + 1;
    }
  }
}
