/** Calendar dates, as the expense `date` field and the date filters use them.
    Parsing a date from text is not part of this model: a `Date` is what
    parsing produced. */
module Calendar {

  type Month = m: int | 1 <= m <= 12 witness 1
  type Day = d: int | 1 <= d <= 31 witness 1

  datatype Date = Date(year: int, month: Month, day: Day)

  /** A (year, month) bucket, the grouping key of the monthly trends. */
  datatype YearMonth = YearMonth(year: int, month: Month)

  /** Chronological order on dates: by year, then month, then day. */
  predicate DateLe(a: Date, b: Date) {
    a.year < b.year
    || (a.year == b.year && (a.month < b.month || (a.month == b.month && a.day <= b.day)))
  }

  /** Chronological order on months: by year, then month. */
  predicate YearMonthLt(a: YearMonth, b: YearMonth) {
    a.year < b.year || (a.year == b.year && a.month < b.month)
  }

  /** The number of the day on a line that reserves 31 days for every month. */
  function DateKey(d: Date): int {
    (d.year * 12 + (d.month - 1)) * 31 + (d.day - 1)
  }

  /** The number of the month counted from year 0. */
  function MonthKey(m: YearMonth): int {
    m.year * 12 + (m.month - 1)
  }

  /** Comparing keys is comparing dates, so sorting by key sorts by date. */
  lemma DateKeyOrder(a: Date, b: Date)
    ensures DateLe(a, b) <==> DateKey(a) <= DateKey(b)
  {
    var ma, mb := a.year * 12 + (a.month - 1), b.year * 12 + (b.month - 1);
    assert DateKey(a) == ma * 31 + (a.day - 1) && DateKey(b) == mb * 31 + (b.day - 1);
    if a.year < b.year {
      assert ma < mb;
    } else if a.year > b.year {
      assert ma > mb;
    }
    if ma < mb {
      assert DateKey(a) < (ma + 1) * 31 <= mb * 31 <= DateKey(b);
    } else if ma > mb {
      assert DateKey(b) < (mb + 1) * 31 <= ma * 31 <= DateKey(a);
    }
  }

  /** Comparing month keys is comparing (year, month) chronologically, and two
      months with the same key are the same month. */
  lemma MonthKeyOrder(a: YearMonth, b: YearMonth)
    ensures YearMonthLt(a, b) <==> MonthKey(a) < MonthKey(b)
    ensures MonthKey(a) == MonthKey(b) ==> a == b
  {
  }
}
