/**
 * Points in time as the timeline sees them.  A JavaScript `Date` built by
 * `new Date(y, m, d)` is modelled by its fields: year, 0-based month index,
 * day of month and milliseconds past midnight.  Dates are compared
 * lexicographically, which agrees with comparing JavaScript timestamps for
 * every date whose fields are in range (see `ValidDate`).  The rollover that
 * JavaScript applies to out-of-range fields is not modelled.
 */
module Dates {

  datatype Date = Date(year: int, month: int, day: int, ms: int)

  const MsPerDay: int := 86400000

  /** `new Date(0)`: the epoch, used by the editor for undated milestones. */
  const Epoch: Date := Date(1970, 0, 1, 0)

  /** `new Date(9999, 0, 1)`: the sort key of a track without any parsed date. */
  const Sentinel: Date := Date(9999, 0, 1, 0)

  predicate Less(a: Date, b: Date) {
    || a.year < b.year
    || (a.year == b.year && a.month < b.month)
    || (a.year == b.year && a.month == b.month && a.day < b.day)
    || (a.year == b.year && a.month == b.month && a.day == b.day && a.ms < b.ms)
  }

  predicate LessEq(a: Date, b: Date) {
    Less(a, b) || a == b
  }

  lemma LessEqTotal(a: Date, b: Date)
    ensures LessEq(a, b) || LessEq(b, a)
  {
  }

  lemma LessEqTransitive(a: Date, b: Date, c: Date)
    requires LessEq(a, b) && LessEq(b, c)
    ensures LessEq(a, c)
  {
  }

  lemma LessEqAntisymmetric(a: Date, b: Date)
    requires LessEq(a, b) && LessEq(b, a)
    ensures a == b
  {
  }

  function Min(a: Date, b: Date): Date {
    if LessEq(a, b) then a else b
  }

  function Max(a: Date, b: Date): Date {
    if LessEq(a, b) then b else a
  }

  predicate IsLeapYear(y: int) {
    (y % 4 == 0 && y % 100 != 0) || y % 400 == 0
  }

  /** Number of days of the month with 0-based index `m` (0..11). */
  function DaysInMonth(y: int, m: int): int
    requires 0 <= m < 12
  {
    if m == 1 then (if IsLeapYear(y) then 29 else 28)
    else if m == 3 || m == 5 || m == 8 || m == 10 then 30
    else 31
  }

  /** A date whose fields need no JavaScript rollover. */
  predicate ValidDate(d: Date) {
    && 0 <= d.month < 12
    && 1 <= d.day <= DaysInMonth(d.year, d.month)
    && 0 <= d.ms < MsPerDay
  }

  /** The calendar day of a point in time, at midnight. */
  function Midnight(d: Date): Date {
    d.(ms := 0)
  }

  /** The year `new Date(y, m, d)` takes: JavaScript reads 0 to 99 as 1900
      to 1999. */
  function FullYear(y: int): int {
    if 0 <= y <= 99 then 1900 + y else y
  }

  /** Months counted from year 0; a month index past 11 carries into the year,
      as JavaScript does, so this is faithful for any month field. */
  function MonthIndex(d: Date): int {
    12 * d.year + d.month
  }

  /** Midnight on the first day of the month with index `k`. */
  function FirstOfMonth(k: int): (d: Date)
    ensures ValidDate(d) && MonthIndex(d) == k && d.day == 1 && d.ms == 0
  {
    Date(k / 12, k % 12, 1, 0)
  }

  /** `d3.timeMonth.ceil`: the index of the first month start at or after `d`. */
  function CeilMonth(d: Date): int {
    if d.day == 1 && d.ms == 0 then MonthIndex(d) else MonthIndex(d) + 1
  }

  /** The month start `CeilMonth` picks is at or after `d`, and no earlier month
      start is. */
  lemma CeilMonthIsLeastUpperMonth(d: Date, k: int)
    requires ValidDate(d)
    ensures LessEq(d, FirstOfMonth(CeilMonth(d)))
    ensures LessEq(d, FirstOfMonth(k)) ==> CeilMonth(d) <= k
  {
    var c := FirstOfMonth(CeilMonth(d));
    if !(d.day == 1 && d.ms == 0) {
      assert MonthIndex(c) == MonthIndex(d) + 1;
      assert c.year > d.year || (c.year == d.year && c.month > d.month);
    }
    var f := FirstOfMonth(k);
    assert MonthIndex(f) == k;
  }

  /** Later month starts are later dates. */
  lemma FirstOfMonthMonotone(j: int, k: int)
    requires j < k
    ensures Less(FirstOfMonth(j), FirstOfMonth(k))
  {
    var a, b := FirstOfMonth(j), FirstOfMonth(k);
    assert 12 * a.year + a.month < 12 * b.year + b.month;
  }
}
