/**
 * Contract dates and the order in which they are compared.
 *
 * A date is kept as the three numbers written in the data file ("YYYY-MM-DD").
 * The aggregator parses it with the pattern '%Y-%M-%d', in which '%M' is the
 * MINUTE field: the parsed timestamp has month 1, the written day as its day and
 * the written month as its minute. Comparing two such timestamps therefore
 * compares (year, day, month). Formatting it back with '%Y-%M' yields the
 * written year and month. Both orders are modelled so that the difference can
 * be stated.
 */
module ContractDates {

  datatype Date = Date(year: int, month: int, day: int)

  datatype YearMonth = YearMonth(year: int, month: int)

  datatype DateOrder =
    | AsParsed  // what comparing the '%Y-%M-%d' timestamps does: (year, day, month)
    | Calendar  // the calendar order: (year, month, day)

  /** The lexicographic key that `order` compares; no two dates share a key. */
  function Key(order: DateOrder, d: Date): (k: (int, int, int))
    ensures DateOfKey(order, k) == d
  {
    match order
    case AsParsed => (d.year, d.day, d.month)
    case Calendar => (d.year, d.month, d.day)
  }

  /** The date whose key under `order` is `k`. */
  function DateOfKey(order: DateOrder, k: (int, int, int)): Date
  {
    match order
    case AsParsed => Date(k.0, k.2, k.1)
    case Calendar => Date(k.0, k.1, k.2)
  }

  /**
   * `a` is not later than `b` under `order`. The year decides first in both
   * orders; under `AsParsed` the day then decides before the month.
   */
  predicate NotAfter(order: DateOrder, a: Date, b: Date)
    ensures a == b ==> NotAfter(order, a, b)
    ensures a.year < b.year ==> NotAfter(order, a, b)
    ensures b.year < a.year ==> !NotAfter(order, a, b)
    ensures order == AsParsed && a.year == b.year && a.day < b.day ==> NotAfter(order, a, b)
    ensures order == Calendar && a.year == b.year && a.month < b.month ==> NotAfter(order, a, b)
  {
    var (a0, a1, a2) := Key(order, a);
    var (b0, b1, b2) := Key(order, b);
    a0 < b0 || (a0 == b0 && (a1 < b1 || (a1 == b1 && a2 <= b2)))
  }

  /** The year-month that '%Y-%M' prints for a parsed date: the day is dropped. */
  function MonthOf(d: Date): YearMonth
  {
    YearMonth(d.year, d.month)
  }

  /** Both orders are total orders on dates: no two distinct dates tie. */
  lemma NotAfterIsTotalOrder(order: DateOrder, a: Date, b: Date, c: Date)
    ensures NotAfter(order, a, a)
    ensures NotAfter(order, a, b) || NotAfter(order, b, a)
    ensures NotAfter(order, a, b) && NotAfter(order, b, a) ==> a == b
    ensures NotAfter(order, a, b) && NotAfter(order, b, c) ==> NotAfter(order, a, c)
  {
  }

  /** On dates that share their day the two orders agree. */
  lemma OrdersAgreeOnSameDay(a: Date, b: Date)
    requires a.day == b.day
    ensures NotAfter(AsParsed, a, b) <==> NotAfter(Calendar, a, b)
  {
  }
}
