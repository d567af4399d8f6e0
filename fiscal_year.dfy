/** Calendar dates and the federal fiscal year derived from them. */
module FiscalYears {
  import opened Wrappers

  /** A calendar date as produced by a date parse (time of day is irrelevant here). */
  datatype Date = Date(year: int, month: int, day: int)

  predicate IsLeapYear(y: int)
  {
    y % 4 == 0 && (y % 100 != 0 || y % 400 == 0)
  }

  function DaysInMonth(y: int, m: int): (n: int)
    requires 1 <= m <= 12
    ensures 28 <= n <= 31
    ensures m == 9 ==> n == 30
  {
    if m == 2 then (if IsLeapYear(y) then 29 else 28)
    else if m == 4 || m == 6 || m == 9 || m == 11 then 30
    else 31
  }

  predicate ValidDate(d: Date)
  {
    1 <= d.month <= 12 && 1 <= d.day <= DaysInMonth(d.year, d.month)
  }

  /** Dates a successful parse can yield. */
  type CalendarDate = d: Date | ValidDate(d) witness Date(2017, 1, 1)

  /** Strict chronological order of dates. */
  predicate Before(a: Date, b: Date)
  {
    a.year < b.year
    || (a.year == b.year && (a.month < b.month || (a.month == b.month && a.day < b.day)))
  }

  /** The first day of fiscal year `fy`: October 1 of the prior calendar year. */
  function FiscalYearStart(fy: int): CalendarDate
  {
    Date(fy - 1, 10, 1)
  }

  /** `compute_fiscal_year` on one date: the calendar year, plus one from October on. */
  function FiscalYear(d: CalendarDate): (fy: int)
    ensures fy == d.year || fy == d.year + 1
    ensures fy == d.year + 1 <==> d.month >= 10
  {
    d.year + (if d.month >= 10 then 1 else 0)
  }

  /** `compute_fiscal_year` on a nullable date: a null date gives a null year. */
  function ComputeFiscalYear(d: Option<CalendarDate>): (fy: Option<int>)
    ensures fy.Some? <==> d.Some?
    ensures d.Some? ==> fy.value == FiscalYear(d.value)
  {
    match d
    case None => None
    case Some(date) => Some(FiscalYear(date))
  }

  /** Independent characterisation: the fiscal year of a date is the one whose
      window [October 1 of the prior year, October 1 of that year) contains it. */
  lemma FiscalYearWindow(d: CalendarDate, fy: int)
    ensures FiscalYear(d) == fy <==> !Before(d, FiscalYearStart(fy)) && Before(d, FiscalYearStart(fy + 1))
  {
  }

  /** The fiscal year is monotone in the date. */
  lemma FiscalYearMonotone(a: CalendarDate, b: CalendarDate)
    requires Before(a, b)
    ensures FiscalYear(a) <= FiscalYear(b)
  {
  }

  /** The examples of the docstring and two more. */
  lemma FiscalYearExamples()
    ensures FiscalYear(Date(2024, 10, 1)) == 2025
    ensures FiscalYear(Date(2025, 9, 30)) == 2025
    ensures FiscalYear(Date(2025, 1, 15)) == 2025
    ensures FiscalYear(Date(2017, 1, 1)) == 2017
    ensures FiscalYear(Date(2024, 9, 30)) == 2024
  {
  }
}
