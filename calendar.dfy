/**
 * Calendar months.  A forecast date is the last historical date moved
 * forward by a whole number of months; only the year and month are kept
 * (the day-of-month clamping of a calendar month offset is not modelled).
 */
module Calendar {

  datatype YearMonth = YearMonth(year: int, month: int)
  {
    ghost predicate Valid()
    {
      1 <= month <= 12
    }
  }

  /** Months elapsed since January of year 0. */
  function MonthIndex(d: YearMonth): int
  {
    d.year * 12 + (d.month - 1)
  }

  /** The calendar month with the given month index. */
  function FromMonthIndex(k: int): (d: YearMonth)
    ensures d.Valid()
    ensures MonthIndex(d) == k
  {
    YearMonth(k / 12, k % 12 + 1)
  }

  /**
   * The month k months after d (before it when k is negative); the year
   * carries over when the month passes December or January.
   */
  function AddMonths(d: YearMonth, k: int): (e: YearMonth)
    ensures e.Valid()
    ensures MonthIndex(e) == MonthIndex(d) + k
  {
    FromMonthIndex(MonthIndex(d) + k)
  }

  /** Two valid months with the same index are the same month. */
  lemma {:induction false} MonthIndexInjective(d: YearMonth, e: YearMonth)
    requires d.Valid() && e.Valid()
    requires MonthIndex(d) == MonthIndex(e)
    ensures d == e
  {
  }

  /** Moving by zero months leaves a valid month unchanged. */
  lemma {:induction false} AddZeroMonths(d: YearMonth)
    requires d.Valid()
    ensures AddMonths(d, 0) == d
  {
    MonthIndexInjective(AddMonths(d, 0), d);
  }

  /** Moving by i months and then by j months is moving by i + j months. */
  lemma {:induction false} AddMonthsAdditive(d: YearMonth, i: int, j: int)
    ensures AddMonths(AddMonths(d, i), j) == AddMonths(d, i + j)
  {
    MonthIndexInjective(AddMonths(AddMonths(d, i), j), AddMonths(d, i + j));
  }

  /** Month offsets preserve order: a later offset is a strictly later month. */
  lemma {:induction false} AddMonthsMonotonic(d: YearMonth, i: int, j: int)
    requires i < j
    ensures MonthIndex(AddMonths(d, i)) < MonthIndex(AddMonths(d, j))
  {
  }
}
