/**
 Calendar dates as the API stores them (`DateField`): a year, a month and a day.
 Time of day is a separate `nat` clock passed to every operation; wall-clock time,
 time zones and date parsing are not modelled.
 */
module Calendar {

  type Month = m: nat | 1 <= m <= 12 witness 1
  type Day = d: nat | 1 <= d <= 31 witness 1

  datatype Date = Date(year: nat, month: Month, day: Day)

  /** A number that orders dates chronologically (day-of-month capped at 31). */
  function Ordinal(d: Date): (k: nat)
    ensures k / 372 == d.year
  {
    d.year * 372 + (d.month - 1) * 31 + (d.day - 1)
  }

  /** Lexicographic (year, month, day) order: the order SQL uses on a DATE column. */
  predicate OnOrBefore(a: Date, b: Date) {
    a.year < b.year
    || (a.year == b.year && a.month < b.month)
    || (a.year == b.year && a.month == b.month && a.day <= b.day)
  }

  /** The ordinal is faithful to the calendar order in both directions. */
  lemma OrdinalMonotone(a: Date, b: Date)
    ensures OnOrBefore(a, b) <==> Ordinal(a) <= Ordinal(b)
  {
    if a.year < b.year {
      assert Ordinal(a) < (a.year + 1) * 372 <= Ordinal(b);
    } else if b.year < a.year {
      assert Ordinal(b) < (b.year + 1) * 372 <= Ordinal(a);
    }
  }
}
