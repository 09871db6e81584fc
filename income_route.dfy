/** The income listing route (`GET /api/income?month=&year=`): the caller's
    income rows dated from midnight of the 1st of the month to 23:59:59 of
    its last day, newest first. */
module IncomeRoute {
  import opened Common
  import opened Calendar
  import opened Store

  /** `!month || !year` is the only check: the month is not range-checked. */
  predicate HasMonthAndYear(month: int, year: int) {
    month != 0 && year != 0
  }

  /** The calendar month `new Date(year, month - 1, ..)` lands in. */
  function RangeMonth(month: int, year: int): YearMonth {
    Normalize(ConstructorYear(year), month - 1)
  }

  /** `new Date(year, month - 1, 1)`. */
  function RangeStart(month: int, year: int): Instant {
    MonthStart(RangeMonth(month, year))
  }

  /** `new Date(year, month, 0, 23, 59, 59)`. */
  function RangeEnd(month: int, year: int): Instant {
    Instant(DayZero(ConstructorYear(year), month), LastSecondOfDay)
  }

  /** `gte: startDate, lte: endDate`. */
  predicate InRange(t: Instant, month: int, year: int) {
    NotAfter(RangeStart(month, year), t) && NotAfter(t, RangeEnd(month, year))
  }

  /** The range covers the calendar month of `new Date(year, month - 1, 1)`
      up to 23:59:59.000 of its last day, whatever that month's length: a
      valid instant is in it exactly when it falls in that month and is not
      in the final second's remaining milliseconds. */
  lemma {:induction false} InRangeIffInMonth(t: Instant, month: int, year: int)
    requires ValidInstant(t)
    ensures var ym := RangeMonth(month, year);
      InRange(t, month, year)
      <==> && t.date.year == ym.year && t.date.month == ym.month
           && !(t.date.day == DaysInMonth(ym.year, ym.month) && t.ms > LastSecondOfDay)
  {
    DayZeroIsLastDayOfPreviousMonth(ConstructorYear(year), month);
  }

  /** A leap February: 29 February 2024 up to 23:59:59 is in the range of
      February 2024 and one millisecond later is not. */
  lemma {:induction false} LeapDayExample()
    ensures InRange(Instant(Date(2024, 2, 29), LastSecondOfDay), 2, 2024)
    ensures !InRange(Instant(Date(2024, 2, 29), LastSecondOfDay + 1), 2, 2024)
  {
    assert RangeStart(2, 2024) == Instant(Date(2024, 2, 1), 0);
    assert Normalize(2024, 2) == YearMonth(2024, 3);
    assert RangeEnd(2, 2024) == Instant(Date(2024, 2, 29), LastSecondOfDay);
  }

  /** No range check on the month: month 13 of 2024 is January 2025. */
  lemma {:induction false} MonthOverflowExample()
    ensures InRange(Instant(Date(2025, 1, 31), 0), 13, 2024)
    ensures !InRange(Instant(Date(2024, 12, 31), 0), 13, 2024)
  {
    assert RangeMonth(13, 2024) == YearMonth(2025, 1);
    assert RangeStart(13, 2024) == Instant(Date(2025, 1, 1), 0);
    assert Normalize(2024, 13) == YearMonth(2025, 2);
    assert RangeEnd(13, 2024) == Instant(Date(2025, 1, 31), LastSecondOfDay);
  }

  /** A two-digit year is a year of the 1900s: year 24 means 1924. */
  lemma {:induction false} TwoDigitYearExample()
    ensures InRange(Instant(Date(1924, 3, 1), 0), 3, 24)
    ensures !InRange(Instant(Date(2024, 3, 1), 0), 3, 24)
  {
    assert RangeStart(3, 24) == Instant(Date(1924, 3, 1), 0);
    assert Normalize(1924, 3) == YearMonth(1924, 4);
    assert RangeEnd(3, 24) == Instant(Date(1924, 3, 31), LastSecondOfDay);
  }

  /** The `where` clause of the query. */
  function ListFilter(user: string, month: int, year: int): Income -> bool {
    (i: Income) => i.clerkId == user && InRange(i.date, month, year)
  }

  function IncomeDate(i: Income): Instant { i.date }

  /** What the route answers, given the session, the two parsed query
      parameters, the income table and whether the query throws. A success
      is the bare array of rows: exactly the caller's rows inside the range,
      each as often as the table holds it, newest first. */
  function ListIncome(session: Option<string>, month: int, year: int,
                      rows: seq<Income>, storeFails: bool): (resp: Response<seq<Income>>)
    ensures !SignedIn(session) ==> resp == Response(401, None, None, Some("Unauthorized"))
    ensures SignedIn(session) && !HasMonthAndYear(month, year) ==>
              resp == Response(400, None, None, Some("Month and year are required"))
    ensures SignedIn(session) && HasMonthAndYear(month, year) && storeFails ==>
              resp == Response(500, None, None, Some("Internal Server Error"))
    ensures SignedIn(session) && HasMonthAndYear(month, year) && !storeFails ==>
              && resp.status == 200 && resp.success.None? && resp.error.None? && resp.data.Some?
              && (forall i :: multiset(resp.data.value)[i]
                               == if i.clerkId == session.value && InRange(i.date, month, year)
                                  then multiset(rows)[i] else 0)
              && SortedByDate(resp.data.value, IncomeDate, true)
  {
    if !SignedIn(session) then Response(401, None, None, Some("Unauthorized"))
    else if !HasMonthAndYear(month, year) then Response(400, None, None, Some("Month and year are required"))
    else if storeFails then Response(500, None, None, Some("Internal Server Error"))
    else
      var p := ListFilter(session.value, month, year);
      WhereCounts(rows, p);
      Response(200, None, Some(SortByDate(Where(rows, p), IncomeDate, true)), None)
  }

  /** Every returned row is the caller's, and the rows come newest first:
      no row is dated after the one before it. */
  lemma {:induction false} ListedIncomeIsOwnedAndNewestFirst(session: Option<string>, month: int, year: int,
                                                             rows: seq<Income>)
    requires SignedIn(session) && HasMonthAndYear(month, year)
    ensures var listed := ListIncome(session, month, year, rows, false).data.value;
      && (forall i :: i in listed ==> i.clerkId == session.value && InRange(i.date, month, year))
      && (forall j :: 0 < j < |listed| ==> NotAfter(listed[j].date, listed[j - 1].date))
  {
    var listed := ListIncome(session, month, year, rows, false).data.value;
    forall i | i in listed ensures i.clerkId == session.value && InRange(i.date, month, year) {
      assert multiset(listed)[i] > 0;
    }
  }
}
