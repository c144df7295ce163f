/**
 Calendar dates as (year, month, day) triples, the month arithmetic of a
 pandas `DateOffset(months = k)` (shift the month, clamp the day to the length
 of the target month), and the chronological order used by date comparisons.
 */
module Dates {

  datatype Date = Date(year: int, month: int, day: int)

  predicate IsLeapYear(y: int) {
    y % 4 == 0 && (y % 100 != 0 || y % 400 == 0)
  }

  /** Number of days in a month of the proleptic Gregorian calendar. */
  function DaysInMonth(y: int, m: int): (n: int)
    requires 1 <= m <= 12
    ensures 28 <= n <= 31
    ensures n == 29 <==> m == 2 && IsLeapYear(y)
  {
    if m == 2 then (if IsLeapYear(y) then 29 else 28)
    else if m == 4 || m == 6 || m == 9 || m == 11 then 30
    else 31
  }

  predicate ValidDate(d: Date) {
    1 <= d.month <= 12 && 1 <= d.day <= DaysInMonth(d.year, d.month)
  }

  /** The absolute month count `year * 12 + (month - 1)`. */
  function AbsMonth(d: Date): int {
    d.year * 12 + (d.month - 1)
  }

  /** The first day of the month whose absolute month count is `a`. */
  function FirstOfAbsMonth(a: int): (d: Date)
    ensures ValidDate(d) && d.day == 1
    ensures AbsMonth(d) == a
  {
    Date(a / 12, a % 12 + 1, 1)
  }

  /** A date is determined by its absolute month count and its day. */
  lemma AbsMonthInjective(a: Date, b: Date)
    requires 1 <= a.month <= 12 && 1 <= b.month <= 12
    requires AbsMonth(a) == AbsMonth(b) && a.day == b.day
    ensures a == b
  {
    var k := AbsMonth(a);
    assert a.year == k / 12 && a.month == k % 12 + 1;
    assert b.year == k / 12 && b.month == k % 12 + 1;
  }

  /**
   Adding a month offset of `k`: move the month by `k` (carrying into the
   year), keeping the day unless the target month is shorter, in which case
   the day becomes that month's last day.
   */
  function AddMonths(d: Date, k: int): (r: Date)
    ensures 1 <= r.month <= 12
    ensures AbsMonth(r) == AbsMonth(d) + k
    ensures r.day <= DaysInMonth(r.year, r.month)
    ensures d.day <= DaysInMonth(r.year, r.month) ==> r.day == d.day
    ensures d.day > DaysInMonth(r.year, r.month) ==> r.day == DaysInMonth(r.year, r.month)
    ensures 1 <= d.day ==> ValidDate(r)
  {
    var target := FirstOfAbsMonth(AbsMonth(d) + k);
    var last := DaysInMonth(target.year, target.month);
    target.(day := if d.day <= last then d.day else last)
  }

  /** The same month, with the day set to 1. */
  function WithDayOne(d: Date): (r: Date)
    ensures AbsMonth(r) == AbsMonth(d) && r.day == 1
    ensures r.year == d.year && r.month == d.month
  {
    d.(day := 1)
  }

  /** Chronological order on dates, as pandas compares timestamps. */
  predicate Before(a: Date, b: Date) {
    a.year < b.year
    || (a.year == b.year && (a.month < b.month || (a.month == b.month && a.day < b.day)))
  }

  predicate NotAfter(a: Date, b: Date) {
    Before(a, b) || a == b
  }

  /** On first-of-month dates, chronological order is the order of absolute month counts. */
  lemma BeforeIffAbsMonthLess(a: Date, b: Date)
    requires 1 <= a.month <= 12 && 1 <= b.month <= 12
    requires a.day == 1 && b.day == 1
    ensures Before(a, b) <==> AbsMonth(a) < AbsMonth(b)
  {
    if a.year < b.year {
      assert a.year * 12 + 12 <= b.year * 12;
    } else if b.year < a.year {
      assert b.year * 12 + 12 <= a.year * 12;
    }
  }

  /** `Before` is a strict total order: irreflexive, transitive, and any two distinct dates are ordered. */
  lemma BeforeStrictTotalOrder(a: Date, b: Date, c: Date)
    ensures !Before(a, a)
    ensures Before(a, b) && Before(b, c) ==> Before(a, c)
    ensures a != b ==> Before(a, b) || Before(b, a)
    ensures Before(a, b) ==> !Before(b, a)
  {
  }

  /** `NotAfter` is the negation of the reverse strict order, as `<=` is for timestamps. */
  lemma NotAfterIsNotReverseBefore(a: Date, b: Date)
    ensures NotAfter(a, b) <==> !Before(b, a)
  {
  }

  /**
   On dates with valid months, chronological order compares the absolute
   month count first and the day second.
   */
  lemma BeforeIffMonthThenDay(a: Date, b: Date)
    requires 1 <= a.month <= 12 && 1 <= b.month <= 12
    ensures Before(a, b) <==> AbsMonth(a) < AbsMonth(b) || (AbsMonth(a) == AbsMonth(b) && a.day < b.day)
  {
    BeforeIffAbsMonthLess(a.(day := 1), b.(day := 1));
    if AbsMonth(a) == AbsMonth(b) {
      AbsMonthInjective(a.(day := 1), b.(day := 1));
    }
  }
}
