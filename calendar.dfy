/** Calendar dates and instants as the handlers use them through the JavaScript
    `Date` constructor, without time zones: a date is a (year, month, day)
    triple of the proleptic Gregorian calendar, an instant a date plus the
    milliseconds elapsed since its midnight. */
module Calendar {

  const MsPerDay: int := 86_400_000

  /** 23:59:59.000, the time of day `new Date(y, m, d, 23, 59, 59)` builds. */
  const LastSecondOfDay: int := (23 * 3600 + 59 * 60 + 59) * 1000

  datatype Date = Date(year: int, month: int, day: int)

  datatype Instant = Instant(date: Date, ms: int)

  datatype YearMonth = YearMonth(year: int, month: int)

  predicate IsLeapYear(y: int) {
    y % 4 == 0 && (y % 100 != 0 || y % 400 == 0)
  }

  function DaysInMonth(y: int, m: int): int
    requires 1 <= m <= 12
  {
    if m == 2 then (if IsLeapYear(y) then 29 else 28)
    else if m == 4 || m == 6 || m == 9 || m == 11 then 30
    else 31
  }

  predicate ValidDate(d: Date) {
    1 <= d.month <= 12 && 1 <= d.day <= DaysInMonth(d.year, d.month)
  }

  predicate ValidInstant(t: Instant) {
    ValidDate(t.date) && 0 <= t.ms < MsPerDay
  }

  /** The year the `Date` constructor uses for a year argument: 0 to 99 stand
      for 1900 to 1999. */
  function ConstructorYear(y: int): (r: int)
    ensures 0 <= y <= 99 ==> r == 1900 + y
    ensures (y < 0 || y > 99) ==> r == y
  {
    if 0 <= y <= 99 then 1900 + y else y
  }

  /** The calendar month the `Date` constructor lands in for year `y` and the
      zero-based month index `mi`, which may lie outside 0..11 (an index of 12
      is January of the next year, -1 December of the year before). */
  function Normalize(y: int, mi: int): (r: YearMonth)
    ensures 1 <= r.month <= 12
    ensures r.year * 12 + (r.month - 1) == y * 12 + mi
  {
    YearMonth(y + mi / 12, mi % 12 + 1)
  }

  /** The month that follows `ym`. */
  function NextMonth(ym: YearMonth): (r: YearMonth)
    requires 1 <= ym.month <= 12
    ensures 1 <= r.month <= 12
    ensures r.year * 12 + (r.month - 1) == ym.year * 12 + (ym.month - 1) + 1
  {
    if ym.month == 12 then YearMonth(ym.year + 1, 1) else YearMonth(ym.year, ym.month + 1)
  }

  function FirstDay(ym: YearMonth): Date {
    Date(ym.year, ym.month, 1)
  }

  function LastDay(ym: YearMonth): (d: Date)
    requires 1 <= ym.month <= 12
  {
    Date(ym.year, ym.month, DaysInMonth(ym.year, ym.month))
  }

  /** `new Date(y, mi, 0)`: day zero of a month is the day before its first
      day. */
  function DayZero(y: int, mi: int): (d: Date)
    ensures ValidDate(d)
    ensures NextDay(d) == FirstDay(Normalize(y, mi))
  {
    var ym := Normalize(y, mi);
    if ym.month == 1 then Date(ym.year - 1, 12, 31)
    else Date(ym.year, ym.month - 1, DaysInMonth(ym.year, ym.month - 1))
  }

  /** The calendar day after a valid date. */
  function NextDay(d: Date): Date
    requires ValidDate(d)
  {
    if d.day < DaysInMonth(d.year, d.month) then Date(d.year, d.month, d.day + 1)
    else FirstDay(NextMonth(YearMonth(d.year, d.month)))
  }

  /** Day zero of month index `mi` is the last day of month index `mi - 1`. */
  lemma DayZeroIsLastDayOfPreviousMonth(y: int, mi: int)
    ensures DayZero(y, mi) == LastDay(Normalize(y, mi - 1))
  {
    var ym, pm := Normalize(y, mi), Normalize(y, mi - 1);
    assert NextMonth(pm) == ym by {
      var n := NextMonth(pm);
      assert n.year * 12 + (n.month - 1) == ym.year * 12 + (ym.month - 1);
      MonthCountIsInjective(n, ym);
    }
  }

  /** Two months with the same absolute month count are the same month. */
  lemma MonthCountIsInjective(a: YearMonth, b: YearMonth)
    requires 1 <= a.month <= 12 && 1 <= b.month <= 12
    requires a.year * 12 + (a.month - 1) == b.year * 12 + (b.month - 1)
    ensures a == b
  {
  }

  /** Strict chronological order of dates. */
  predicate DateBefore(a: Date, b: Date) {
    a.year < b.year
    || (a.year == b.year && (a.month < b.month || (a.month == b.month && a.day < b.day)))
  }

  /** `a <= b` on instants. */
  predicate NotAfter(a: Instant, b: Instant) {
    DateBefore(a.date, b.date) || (a.date == b.date && a.ms <= b.ms)
  }

  /** `a < b` on instants. */
  predicate Before(a: Instant, b: Instant) {
    !NotAfter(b, a)
  }

  /** The first instant of a month, midnight of its first day. */
  function MonthStart(ym: YearMonth): Instant {
    Instant(FirstDay(ym), 0)
  }

  /** `NotAfter` is a total preorder, so it can order query results. */
  lemma NotAfterIsTotalPreorder(a: Instant, b: Instant, c: Instant)
    ensures NotAfter(a, a)
    ensures NotAfter(a, b) || NotAfter(b, a)
    ensures NotAfter(a, b) && NotAfter(b, c) ==> NotAfter(a, c)
    ensures NotAfter(a, b) && NotAfter(b, a) ==> a == b
  {
  }

  /** February has 29 days exactly in leap years. */
  lemma FebruaryLength(y: int)
    ensures DaysInMonth(y, 2) == 29 <==> IsLeapYear(y)
    ensures DaysInMonth(2024, 2) == 29 && DaysInMonth(2023, 2) == 28
    ensures DaysInMonth(2000, 2) == 29 && DaysInMonth(1900, 2) == 28
  {
  }
}
