/**
 * Local calendar days as JavaScript's `Date` constructor builds them from
 * (year, monthIndex, day) at midnight: months are numbered 0 (January) to 11
 * (December) and an out-of-range month rolls over into the neighbouring year.
 * The proleptic Gregorian leap-year rule applies, as in ECMAScript.
 */
module Calendar {

  datatype Day = Day(year: int, month: int, date: int)

  predicate IsLeapYear(y: int) {
    (y % 4 == 0 && y % 100 != 0) || y % 400 == 0
  }

  function DaysInMonth(y: int, m: int): (n: int)
    requires 0 <= m < 12
    ensures 28 <= n <= 31
  {
    if m == 1 then (if IsLeapYear(y) then 29 else 28)
    else if m == 3 || m == 5 || m == 8 || m == 10 then 30
    else 31
  }

  /** A day that exists in the calendar. */
  predicate ValidDay(d: Day) {
    0 <= d.month < 12 && 1 <= d.date <= DaysInMonth(d.year, d.month)
  }

  /** Strictly earlier midnight. */
  predicate Before(a: Day, b: Day) {
    || a.year < b.year
    || (a.year == b.year && a.month < b.month)
    || (a.year == b.year && a.month == b.month && a.date < b.date)
  }

  /**
   * `new Date(y, m, 1)`: the first of month `m` of year `y`, where `m` may lie
   * outside 0..11 and is carried into the year (floor division; Dafny's `/` and
   * `%` are Euclidean, which agrees with floor division for the divisor 12).
   */
  function MonthStart(y: int, m: int): (d: Day)
    ensures ValidDay(d) && d.date == 1
    ensures 0 <= m < 12 ==> d == Day(y, m, 1)
    ensures m == -1 ==> d == Day(y - 1, 11, 1)
    ensures m == 12 ==> d == Day(y + 1, 0, 1)
  {
    Day(y + m / 12, m % 12, 1)
  }

  /**
   * `t.setDate(t.getDate() + 1)` on a midnight: the following day, rolling
   * over into the next month and the next year.
   */
  function NextDay(d: Day): (r: Day)
    requires ValidDay(d)
    ensures ValidDay(r) && Before(d, r)
  {
    if d.date < DaysInMonth(d.year, d.month) then Day(d.year, d.month, d.date + 1)
    else if d.month < 11 then Day(d.year, d.month + 1, 1)
    else Day(d.year + 1, 0, 1)
  }

  /** No day lies strictly between a day and the next one. */
  lemma NextDayIsSuccessor(d: Day, e: Day)
    requires ValidDay(d) && ValidDay(e)
    ensures Before(d, e) <==> !Before(e, NextDay(d))
  {
  }

  /** The first of a month is before the first of the following month. */
  lemma MonthStartsAdvance(y: int, m: int)
    ensures Before(MonthStart(y, m), MonthStart(y, m + 1))
  {
  }

  /** A day of a month lies in the half-open span from its first to the next month's first. */
  lemma DayWithinItsMonth(d: Day)
    requires ValidDay(d)
    ensures !Before(d, MonthStart(d.year, d.month))
    ensures Before(d, MonthStart(d.year, d.month + 1))
  {
  }
}
