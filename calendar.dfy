/**
 * Dates as the chart sees them: a month index (0 = January, as JavaScript's
 * `getMonth`) and a day of the month (as `getDate`), always in the year 2025,
 * the year the chart hard-codes when it asks for the length of a month.
 */
module Calendar {

  datatype Date = Date(month: int, day: int)

  /**
   * The number of days of month `m` of 2025, which is what
   * `new Date(2025, m + 1, 0).getDate()` yields: 2025 is not a leap year.
   */
  function DaysInMonth2025(m: int): (d: int)
    requires 0 <= m < 12
    ensures 28 <= d <= 31
    ensures d == 28 <==> m == 1
  {
    if m == 1 then 28
    else if m == 3 || m == 5 || m == 8 || m == 10 then 30
    else 31
  }

  /** A day that exists in 2025. */
  predicate ValidDate(d: Date) {
    0 <= d.month < 12 && 1 <= d.day <= DaysInMonth2025(d.month)
  }

  /** Chronological order on dates of the same year. */
  predicate DateLe(a: Date, b: Date) {
    a.month < b.month || (a.month == b.month && a.day <= b.day)
  }
}
