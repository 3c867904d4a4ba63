/** Calendar dates and the periods the NWOH import aggregates over. */
module Calendar {

  /** A parsed calendar date (the 'YYYY-MM-DD' key of the daily table). */
  datatype Date = Date(year: int, month: int, day: int)

  /**
   * A bucket scope: a month ('YYYY-MM'), a year ('YYYY'), or every date
   * (the scope of the grand totals).
   */
  datatype Period = Month(year: int, month: int) | Year(year: int) | AllDates

  predicate InPeriod(d: Date, p: Period)
  {
    match p
    case Month(y, m) => d.year == y && d.month == m
    case Year(y) => d.year == y
    case AllDates => true
  }

  function MonthOf(d: Date): (p: Period)
    ensures InPeriod(d, p) && p.Month?
  {
    Month(d.year, d.month)
  }

  function YearOf(d: Date): (p: Period)
    ensures InPeriod(d, p) && p.Year?
  {
    Year(d.year)
  }
}
