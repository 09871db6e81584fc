/** The monthly summary route (`GET /api/dashboardinfo?month=&year=`): the
    caller's income and expense rows dated inside the requested calendar
    month, their totals, and the expenses grouped by category and by
    subcategory. */
module DashboardInfo {
  import opened Common
  import opened Calendar
  import opened Store
  import opened Dict

  /** `!month || month < 1 || month > 12 || !year` rejects everything else;
      `Number(..)` of an absent, empty or non-numeric parameter is falsy and
      stands here as 0. */
  predicate ValidMonthYear(month: int, year: int) {
    month != 0 && 1 <= month <= 12 && year != 0
  }

  /** `new Date(year, month - 1, 1)`. */
  function WindowStart(month: int, year: int): Instant {
    MonthStart(Normalize(ConstructorYear(year), month - 1))
  }

  /** `new Date(year, month, 1)`, the first day of the next month. */
  function WindowEnd(month: int, year: int): Instant {
    MonthStart(Normalize(ConstructorYear(year), month))
  }

  /** `gte: startDate, lt: endDate`: the half-open month window. */
  predicate InWindow(t: Instant, month: int, year: int) {
    NotAfter(WindowStart(month, year), t) && Before(t, WindowEnd(month, year))
  }

  /** For a valid month the window runs from the 1st of that month to the 1st
      of the next one, December rolling over into January of the next year. */
  lemma {:induction false} WindowBounds(month: int, year: int)
    requires ValidMonthYear(month, year)
    ensures WindowStart(month, year) == Instant(Date(ConstructorYear(year), month, 1), 0)
    ensures WindowEnd(month, year)
         == if month == 12 then Instant(Date(ConstructorYear(year) + 1, 1, 1), 0)
            else Instant(Date(ConstructorYear(year), month + 1, 1), 0)
  {
    var y := ConstructorYear(year);
    MonthCountIsInjective(Normalize(y, month - 1), YearMonth(y, month));
    if month == 12 {
      MonthCountIsInjective(Normalize(y, month), YearMonth(y + 1, 1));
    } else {
      MonthCountIsInjective(Normalize(y, month), YearMonth(y, month + 1));
    }
  }

  /** A valid instant lies in the window exactly when it falls in the
      requested calendar month; so the 1st of the month at midnight is in and
      the 1st of the next month at midnight is out. */
  lemma {:induction false} InWindowIffSameMonth(t: Instant, month: int, year: int)
    requires ValidMonthYear(month, year) && ValidInstant(t)
    ensures InWindow(t, month, year)
        <==> t.date.year == ConstructorYear(year) && t.date.month == month
    ensures InWindow(WindowStart(month, year), month, year)
    ensures !InWindow(WindowEnd(month, year), month, year)
  {
    WindowBounds(month, year);
  }

  /** The `where` clause of the expenses query. */
  function ExpenseFilter(user: string, month: int, year: int): Expense -> bool {
    (e: Expense) => e.clerkId == user && InWindow(e.date, month, year)
  }

  /** The `where` clause of the income query. */
  function IncomeFilter(user: string, month: int, year: int): Income -> bool {
    (i: Income) => i.clerkId == user && InWindow(i.date, month, year)
  }

  /** The expense rows the query keeps: the caller's, inside the window. */
  function SelectedExpenses(rows: seq<Expense>, user: string, month: int, year: int): seq<Expense> {
    Where(rows, ExpenseFilter(user, month, year))
  }

  /** The income rows the query keeps: the caller's, inside the window. */
  function SelectedIncome(rows: seq<Income>, user: string, month: int, year: int): seq<Income> {
    Where(rows, IncomeFilter(user, month, year))
  }

  function ExpenseAmount(e: Expense): int { e.amount }

  function IncomeAmount(i: Income): int { i.amount }

  /** The two dictionaries the grouping loop fills. */
  datatype Grouping = ByCategory | BySubcategory

  function KeyOf(e: Expense, g: Grouping): string {
    match g
    case ByCategory => e.category
    case BySubcategory => e.subCategory
  }

  /** The dictionary `forEach` leaves behind after visiting `rows` in order:
      `dict[key] = (dict[key] || 0) + amount` for each row. */
  function Grouped(rows: seq<Expense>, g: Grouping): Dict {
    if rows == [] then []
    else
      var d := Grouped(rows[..|rows| - 1], g);
      var e := rows[|rows| - 1];
      Put(d, KeyOf(e, g), Get(d, KeyOf(e, g)).GetOr(0) + e.amount)
  }

  /** The distinct keys present among the rows. */
  function KeySet(rows: seq<Expense>, g: Grouping): set<string> {
    set e | e in rows :: KeyOf(e, g)
  }

  /** The test "this row's key is `k`". */
  function HasKey(g: Grouping, k: string): Expense -> bool {
    (e: Expense) => KeyOf(e, g) == k
  }

  /** The total amount of the rows whose key is `k`. */
  function SumFor(rows: seq<Expense>, g: Grouping, k: string): int {
    SumOf(Where(rows, HasKey(g, k)), ExpenseAmount)
  }

  /** Visiting one more row is one `dict[key] = (dict[key] || 0) + amount`. */
  lemma {:induction false} GroupedSnoc(rows: seq<Expense>, e: Expense, g: Grouping)
    ensures var d := Grouped(rows, g);
      Grouped(rows + [e], g) == Put(d, KeyOf(e, g), Get(d, KeyOf(e, g)).GetOr(0) + e.amount)
  {
    assert (rows + [e])[..|rows|] == rows;
  }

  /** No key occurs twice in the grouped dictionary. */
  lemma {:induction false} GroupedWellformed(rows: seq<Expense>, g: Grouping)
    ensures Wellformed(Grouped(rows, g))
    decreases |rows|
  {
    if rows != [] {
      var init, e := rows[..|rows| - 1], rows[|rows| - 1];
      GroupedWellformed(init, g);
      var d, key := Grouped(init, g), KeyOf(e, g);
      PutWellformed(d, key, Get(d, key).GetOr(0) + e.amount);
    }
  }

  /** Insertion order: visiting a row leaves the keys in place and appends the
      row's key when it is new. */
  lemma {:induction false} GroupedKeysGrowAtTheEnd(rows: seq<Expense>, e: Expense, g: Grouping)
    ensures var ks := Keys(Grouped(rows, g));
      Keys(Grouped(rows + [e], g)) == if KeyOf(e, g) in ks then ks else ks + [KeyOf(e, g)]
  {
    GroupedSnoc(rows, e, g);
    var d, key := Grouped(rows, g), KeyOf(e, g);
    var v := Get(d, key).GetOr(0) + e.amount;
    assert Grouped(rows + [e], g) == Put(d, key, v);
    PutKeys(d, key, v);
    assert Keys(Put(d, key, v)) == if key in Keys(d) then Keys(d) else Keys(d) + [key];
  }

  /** The keys of the grouped dictionary are exactly the keys present among
      the rows. */
  lemma {:induction false} GroupedKeys(rows: seq<Expense>, g: Grouping)
    ensures forall k :: k in Keys(Grouped(rows, g)) <==> k in KeySet(rows, g)
    decreases |rows|
  {
    if rows != [] {
      var init, e := rows[..|rows| - 1], rows[|rows| - 1];
      assert rows == init + [e];
      GroupedKeys(init, g);
      GroupedKeysGrowAtTheEnd(init, e, g);
      KeySetSnoc(init, e, g);
    }
  }

  /** One more row adds its own key to the keys present. */
  lemma {:induction false} KeySetSnoc(rows: seq<Expense>, e: Expense, g: Grouping)
    ensures KeySet(rows + [e], g) == KeySet(rows, g) + {KeyOf(e, g)}
  {
    forall k | k in KeySet(rows + [e], g) ensures k in KeySet(rows, g) + {KeyOf(e, g)} {
      var x :| x in rows + [e] && KeyOf(x, g) == k;
      if x != e {
        assert x in rows;
      }
    }
    forall k | k in KeySet(rows, g) ensures k in KeySet(rows + [e], g) {
      var x :| x in rows && KeyOf(x, g) == k;
      assert x in rows + [e];
    }
    assert e in rows + [e];
  }

  /** One more row adds its amount to its own key's total only. */
  lemma {:induction false} SumForSnoc(rows: seq<Expense>, e: Expense, g: Grouping, k: string)
    ensures SumFor(rows + [e], g, k) == SumFor(rows, g, k) + (if KeyOf(e, g) == k then e.amount else 0)
  {
    var p := HasKey(g, k);
    WhereSnoc(rows, e, p);
    if KeyOf(e, g) == k {
      SumOfSnoc(Where(rows, p), e, ExpenseAmount);
    } else {
      assert Where(rows + [e], p) == Where(rows, p);
    }
  }

  /** A key no row carries totals 0. */
  lemma {:induction false} SumForAbsent(rows: seq<Expense>, g: Grouping, k: string)
    requires k !in KeySet(rows, g)
    ensures SumFor(rows, g, k) == 0
  {
    var p := HasKey(g, k);
    WhereCounts(rows, p);
    if Where(rows, p) != [] {
      assert Where(rows, p)[0] in Where(rows, p);
    }
  }

  /** Each key present among the rows maps to the total amount of its rows;
      any other key is absent. */
  lemma {:induction false} GroupedValue(rows: seq<Expense>, g: Grouping, k: string)
    ensures Get(Grouped(rows, g), k) == if k in KeySet(rows, g) then Some(SumFor(rows, g, k)) else None
    decreases |rows|
  {
    if rows != [] {
      var init, e := rows[..|rows| - 1], rows[|rows| - 1];
      assert rows == init + [e];
      GroupedValue(init, g, k);
      if KeyOf(e, g) == k {
        GroupedValueStepSameKey(init, e, g, k);
      } else {
        GroupedValueStepOtherKey(init, e, g, k);
      }
    }
  }

  /** Visiting a row with another key leaves key `k`'s entry and total as
      they were. */
  lemma {:induction false} GroupedValueStepOtherKey(rows: seq<Expense>, e: Expense, g: Grouping, k: string)
    requires KeyOf(e, g) != k
    ensures Get(Grouped(rows + [e], g), k) == Get(Grouped(rows, g), k)
    ensures k in KeySet(rows + [e], g) <==> k in KeySet(rows, g)
    ensures SumFor(rows + [e], g, k) == SumFor(rows, g, k)
  {
    assert Get(Grouped(rows + [e], g), k) == Get(Grouped(rows, g), k) by {
      var d, key := Grouped(rows, g), KeyOf(e, g);
      GroupedSnoc(rows, e, g);
      PutGet(d, key, Get(d, key).GetOr(0) + e.amount);
    }
    assert k in KeySet(rows + [e], g) <==> k in KeySet(rows, g) by {
      KeySetSnoc(rows, e, g);
    }
    SumForSnoc(rows, e, g, k);
  }

  /** Visiting a row with key `k` adds its amount to `k`'s entry, which
      starts from 0 when absent. */
  lemma {:induction false} GroupedValueStepSameKey(rows: seq<Expense>, e: Expense, g: Grouping, k: string)
    requires KeyOf(e, g) == k
    requires Get(Grouped(rows, g), k) == if k in KeySet(rows, g) then Some(SumFor(rows, g, k)) else None
    ensures Get(Grouped(rows + [e], g), k) == Some(SumFor(rows + [e], g, k))
    ensures k in KeySet(rows + [e], g)
  {
    var d := Grouped(rows, g);
    var v := Get(d, k).GetOr(0) + e.amount;
    GroupedSnoc(rows, e, g);
    PutGet(d, k, v);
    KeySetSnoc(rows, e, g);
    SumForSnoc(rows, e, g, k);
    if k !in KeySet(rows, g) {
      SumForAbsent(rows, g, k);
    }
  }

  /** The grouped dictionary in one statement: each key present among the
      rows exactly once, with the total of its rows. */
  lemma {:induction false} GroupedEntries(rows: seq<Expense>, g: Grouping)
    ensures Wellformed(Grouped(rows, g))
    ensures forall k :: k in Keys(Grouped(rows, g)) <==> k in KeySet(rows, g)
    ensures forall k :: k in KeySet(rows, g) ==> Get(Grouped(rows, g), k) == Some(SumFor(rows, g, k))
  {
    GroupedWellformed(rows, g);
    GroupedKeys(rows, g);
    forall k | k in KeySet(rows, g) ensures Get(Grouped(rows, g), k) == Some(SumFor(rows, g, k)) {
      GroupedValue(rows, g, k);
    }
  }

  /** The values of the grouped dictionary add up to the total of all rows. */
  lemma {:induction false} GroupedTotal(rows: seq<Expense>, g: Grouping)
    ensures SumValues(Grouped(rows, g)) == SumOf(rows, ExpenseAmount)
    decreases |rows|
  {
    if rows != [] {
      var init, e := rows[..|rows| - 1], rows[|rows| - 1];
      GroupedTotal(init, g);
      GroupedWellformed(init, g);
      var d := Grouped(init, g);
      PutSum(d, KeyOf(e, g), Get(d, KeyOf(e, g)).GetOr(0) + e.amount);
    }
  }

  /** The `forEach` loop that fills `categoryExpenses` and
      `subcategoryExpenses` in place. */
  method GroupExpenses(rows: seq<Expense>) returns (byCategory: Dict, bySubcategory: Dict)
    ensures byCategory == Grouped(rows, ByCategory) && bySubcategory == Grouped(rows, BySubcategory)
    ensures Wellformed(byCategory) && Wellformed(bySubcategory)
    ensures forall k :: k in Keys(byCategory) <==> k in KeySet(rows, ByCategory)
    ensures forall k :: k in Keys(bySubcategory) <==> k in KeySet(rows, BySubcategory)
    ensures forall k :: k in KeySet(rows, ByCategory) ==> Get(byCategory, k) == Some(SumFor(rows, ByCategory, k))
    ensures forall k :: k in KeySet(rows, BySubcategory) ==> Get(bySubcategory, k) == Some(SumFor(rows, BySubcategory, k))
    ensures SumValues(byCategory) == SumOf(rows, ExpenseAmount)
    ensures SumValues(bySubcategory) == SumOf(rows, ExpenseAmount)
  {
    byCategory, bySubcategory := [], [];
    for i := 0 to |rows|
      invariant byCategory == Grouped(rows[..i], ByCategory)
      invariant bySubcategory == Grouped(rows[..i], BySubcategory)
    {
      var e := rows[i];
      byCategory := Put(byCategory, e.category, Get(byCategory, e.category).GetOr(0) + e.amount);
      bySubcategory := Put(bySubcategory, e.subCategory, Get(bySubcategory, e.subCategory).GetOr(0) + e.amount);
      assert byCategory == Grouped(rows[..i + 1], ByCategory) && bySubcategory == Grouped(rows[..i + 1], BySubcategory) by {
        assert rows[..i + 1] == rows[..i] + [e];
        GroupedSnoc(rows[..i], e, ByCategory);
        GroupedSnoc(rows[..i], e, BySubcategory);
      }
    }
    assert rows[..|rows|] == rows;
    GroupedEntries(rows, ByCategory);
    GroupedEntries(rows, BySubcategory);
    GroupedTotal(rows, ByCategory);
    GroupedTotal(rows, BySubcategory);
  }

  /** The `data` member of a successful response. */
  datatype Summary = Summary(
    month: int,
    year: int,
    totalIncome: int,
    totalExpenses: int,
    totalRemaining: int,
    expensesByCategory: Dict,
    expensesBySubcategory: Dict)

  /** What the route answers, given the session, the two parsed query
      parameters, both tables, and whether a query throws. */
  function SummaryResponse(session: Option<string>, month: int, year: int,
                           incomeRows: seq<Income>, expenseRows: seq<Expense>,
                           storeFails: bool): Response<Summary>
  {
    if !SignedIn(session) then Refusal(401, "Unauthorized")
    else if !ValidMonthYear(month, year) then Refusal(400, "Invalid month or year parameter")
    else if storeFails then Refusal(500, "Failed to fetch monthly data")
    else
      var expenses := SelectedExpenses(expenseRows, session.value, month, year);
      var income := SelectedIncome(incomeRows, session.value, month, year);
      var totalIncome := SumOf(income, IncomeAmount);
      var totalExpenses := SumOf(expenses, ExpenseAmount);
      Response(200, Some(true),
               Some(Summary(month, year, totalIncome, totalExpenses, totalIncome - totalExpenses,
                            Grouped(expenses, ByCategory), Grouped(expenses, BySubcategory))),
               None)
  }

  /** The handler: the checks in order, the two queries, the two `reduce`
      totals and the grouping loop. */
  method GetMonthlySummary(session: Option<string>, month: int, year: int,
                           incomeRows: seq<Income>, expenseRows: seq<Expense>,
                           storeFails: bool) returns (resp: Response<Summary>)
    ensures resp == SummaryResponse(session, month, year, incomeRows, expenseRows, storeFails)
  {
    if !SignedIn(session) {
      return Refusal(401, "Unauthorized");
    }
    if !ValidMonthYear(month, year) {
      return Refusal(400, "Invalid month or year parameter");
    }
    if storeFails {
      return Refusal(500, "Failed to fetch monthly data");
    }
    var expenses := SelectedExpenses(expenseRows, session.value, month, year);
    var income := SelectedIncome(incomeRows, session.value, month, year);
    var totalIncome := SumOf(income, IncomeAmount);
    var totalExpenses := SumOf(expenses, ExpenseAmount);
    var byCategory, bySubcategory := GroupExpenses(expenses);
    resp := Response(200, Some(true),
                     Some(Summary(month, year, totalIncome, totalExpenses, totalIncome - totalExpenses,
                                  byCategory, bySubcategory)),
                     None);
  }

  /** The refusals: no user id gives 401 whatever else the request holds and
      whether or not the store would fail (no query is made); a bad month or
      year gives 400; a failing query 500. */
  lemma {:induction false} SummaryRefusals(session: Option<string>, month: int, year: int,
                        incomeRows: seq<Income>, expenseRows: seq<Expense>, storeFails: bool)
    ensures var r := SummaryResponse(session, month, year, incomeRows, expenseRows, storeFails);
      && (!SignedIn(session) ==> r == Response(401, Some(false), None, Some("Unauthorized")))
      && (SignedIn(session) && (month == 0 || month < 1 || month > 12 || year == 0) ==>
            r == Response(400, Some(false), None, Some("Invalid month or year parameter")))
      && (SignedIn(session) && ValidMonthYear(month, year) && storeFails ==>
            r == Response(500, Some(false), None, Some("Failed to fetch monthly data")))
      && (r.status == 200 <==> SignedIn(session) && ValidMonthYear(month, year) && !storeFails)
  {
  }

  /** A successful summary: it echoes month and year; a row counts exactly
      when it is the caller's and dated inside the window; the totals are the
      sums of the kept rows and `totalRemaining` their difference; each
      grouping has exactly the keys present among the kept expenses, each
      with its own total, and its values add up to `totalExpenses`. */
  lemma {:induction false} SummaryContents(session: Option<string>, month: int, year: int,
                        incomeRows: seq<Income>, expenseRows: seq<Expense>)
    requires SignedIn(session) && ValidMonthYear(month, year)
    ensures var r := SummaryResponse(session, month, year, incomeRows, expenseRows, false);
      var user := session.value;
      var expenses := SelectedExpenses(expenseRows, user, month, year);
      var income := SelectedIncome(incomeRows, user, month, year);
      && r.status == 200 && r.success == Some(true) && r.data.Some? && r.error.None?
      && r.data.value.month == month && r.data.value.year == year
      && (forall e :: multiset(expenses)[e] ==
            if e.clerkId == user && InWindow(e.date, month, year) then multiset(expenseRows)[e] else 0)
      && (forall i :: multiset(income)[i] ==
            if i.clerkId == user && InWindow(i.date, month, year) then multiset(incomeRows)[i] else 0)
      && r.data.value.totalIncome == SumOf(income, IncomeAmount)
      && r.data.value.totalExpenses == SumOf(expenses, ExpenseAmount)
      && r.data.value.totalRemaining == r.data.value.totalIncome - r.data.value.totalExpenses
      && (forall g: Grouping ::
            var d := if g == ByCategory then r.data.value.expensesByCategory else r.data.value.expensesBySubcategory;
            && Wellformed(d)
            && (forall k :: k in Keys(d) <==> k in KeySet(expenses, g))
            && (forall k :: k in KeySet(expenses, g) ==> Get(d, k) == Some(SumFor(expenses, g, k)))
            && SumValues(d) == r.data.value.totalExpenses)
  {
    var expenses := SelectedExpenses(expenseRows, session.value, month, year);
    WhereCounts(expenseRows, ExpenseFilter(session.value, month, year));
    WhereCounts(incomeRows, IncomeFilter(session.value, month, year));
    GroupedEntries(expenses, ByCategory);
    GroupedEntries(expenses, BySubcategory);
    GroupedTotal(expenses, ByCategory);
    GroupedTotal(expenses, BySubcategory);
  }

  /** The rows of a worked month: two January expenses, a February one and
      a January income, all of user "U". */
  const Groceries := Expense("U", "Food", "Groceries", 30, Instant(Date(2024, 1, 5), 0))
  const Restaurant := Expense("U", "Food", "Restaurants", 20, Instant(Date(2024, 1, 10), 0))
  const Fuel := Expense("U", "Transport", "Fuel", 50, Instant(Date(2024, 2, 1), 0))
  const Salary := Income("U", "Job", 1000, Instant(Date(2024, 1, 1), 0))

  /** January's window keeps the two January expenses and the income. */
  lemma {:induction false} JanuarySelection()
    ensures SelectedExpenses([Groceries, Restaurant, Fuel], "U", 1, 2024) == [Groceries, Restaurant]
    ensures SelectedIncome([Salary], "U", 1, 2024) == [Salary]
  {
    WindowBounds(1, 2024);
    var p := ExpenseFilter("U", 1, 2024);
    assert p(Groceries) && p(Restaurant) && !p(Fuel);
    var rows := [Groceries, Restaurant, Fuel];
    assert rows[1..] == [Restaurant, Fuel] && rows[1..][1..] == [Fuel] && [Fuel][1..] == [];
    assert Where([Fuel], p) == [];
    assert Where([Restaurant, Fuel], p) == [Restaurant];
    var q := IncomeFilter("U", 1, 2024);
    assert q(Salary);
    assert [Salary][1..] == [];
    assert Where([Salary], q) == [Salary] + Where([], q);
  }

  /** The two January expenses group under one category and two
      subcategories. */
  lemma {:induction false} JanuaryGroups()
    ensures Grouped([Groceries, Restaurant], ByCategory) == [("Food", 50)]
    ensures Grouped([Groceries, Restaurant], BySubcategory) == [("Groceries", 30), ("Restaurants", 20)]
  {
    assert [Groceries, Restaurant][..1] == [Groceries];
    assert Grouped([Groceries], ByCategory) == [("Food", 30)];
    assert Grouped([Groceries], BySubcategory) == [("Groceries", 30)];
    var g: Dict := [("Groceries", 30)];
    assert g[1..] == [];
    assert Get(g, "Restaurants") == None;
    assert Put(g, "Restaurants", 20) == [("Groceries", 30)] + [("Restaurants", 20)];
  }

  /** A worked month: January's summary keeps only the January rows, totals
      them, and groups the two food expenses under one category and two
      subcategories. */
  lemma {:induction false} JanuarySummary()
    ensures SummaryResponse(Some("U"), 1, 2024, [Salary], [Groceries, Restaurant, Fuel], false).data
      == Some(Summary(1, 2024, 1000, 50, 950, [("Food", 50)], [("Groceries", 30), ("Restaurants", 20)]))
  {
    JanuarySelection();
    JanuaryGroups();
    SumOfSnoc([], Groceries, ExpenseAmount);
    SumOfSnoc([Groceries], Restaurant, ExpenseAmount);
    assert [] + [Groceries] == [Groceries] && [Groceries] + [Restaurant] == [Groceries, Restaurant];
    assert SumOf([Salary], IncomeAmount) == 1000;
  }
}
