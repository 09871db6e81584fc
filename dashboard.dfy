/** The dashboard page's data helpers: the fixed category taxonomy, the two
    projections from the monthly summary to chart rows, the displayed
    expense total, and the summary request the page makes. */
module Dashboard {
  import opened Common
  import opened Store
  import opened Dict
  import opened DashboardInfo

  datatype CategoryDetails = CategoryDetails(name: string, color: string, subcategories: seq<string>)

  /** `CATEGORIES`, its entries in declaration order. */
  const Categories: seq<(string, CategoryDetails)> := [
    ("Food", CategoryDetails("Food", "#ff3021", ["Groceries", "Restaurants", "Fast Food"])),
    ("Transport", CategoryDetails("Transport", "#21c4ff", ["Fuel", "Public Transport", "Taxi"])),
    ("Utilities", CategoryDetails("Utilities", "#72ff21", ["Electricity", "Water", "Internet"]))
  ]

  /** The colour of a chart slice for a category not in the taxonomy. */
  const FallbackColor: string := "#8884d8"

  /** `Object.keys(CATEGORIES)`, the entries of the category dropdown. */
  function CategoryKeys(): (ks: seq<string>)
    ensures |ks| == |Categories|
    ensures forall i :: 0 <= i < |ks| ==> ks[i] == Categories[i].0
  {
    seq(|Categories|, i requires 0 <= i < |Categories| => Categories[i].0)
  }

  /** `CATEGORIES[key]`, `None` for `undefined`. */
  function Lookup(key: string): Option<CategoryDetails> {
    LookupIn(Categories, key)
  }

  /** The details of the first entry of `cs` with the given key. */
  function LookupIn(cs: seq<(string, CategoryDetails)>, key: string): Option<CategoryDetails> {
    if cs == [] then None
    else if cs[0].0 == key then Some(cs[0].1)
    else LookupIn(cs[1..], key)
  }

  /** The taxonomy has three categories, each named after its key and
      holding three distinct subcategories; `Lookup` finds exactly them. */
  lemma {:induction false} TaxonomyShape()
    ensures CategoryKeys() == ["Food", "Transport", "Utilities"]
    ensures forall k :: Lookup(k).Some? <==> k in CategoryKeys()
    ensures forall i :: 0 <= i < |Categories| ==>
              var c := Categories[i].1;
              && Lookup(Categories[i].0) == Some(c)
              && c.name == Categories[i].0
              && |c.subcategories| == 3
              && (forall a, b :: 0 <= a < b < 3 ==> c.subcategories[a] != c.subcategories[b])
  {
    assert CategoryKeys() == ["Food", "Transport", "Utilities"];
    var cs := Categories;
    assert cs[1..] == [cs[1], cs[2]] && cs[1..][1..] == [cs[2]] && cs[1..][1..][1..] == [];
    forall k ensures Lookup(k).Some? <==> k in CategoryKeys() {
      assert LookupIn(cs[1..][1..], k).Some? <==> k == "Utilities";
      assert LookupIn(cs[1..], k).Some? <==> k == "Transport" || k == "Utilities";
    }
  }

  /** Every entry of the dropdown is a key of the taxonomy, so after a click
      the selection is one and the lookup of `prepareSubcategoryData` is
      defined. */
  lemma {:induction false} DropdownOffersOnlyKeys(category: string)
    requires category in CategoryKeys()
    ensures Lookup(category).Some? && Lookup(category).value.name == category
  {
    TaxonomyShape();
    var i :| 0 <= i < |CategoryKeys()| && CategoryKeys()[i] == category;
  }


  /** A chart row; the subcategory chart leaves out the colour. */
  datatype ChartItem = ChartItem(name: string, value: int, color: Option<string>)

  /** The colour of a category's slice: the taxonomy's, or the fallback. */
  function ColorOf(key: string): string {
    match Lookup(key)
    case Some(c) => c.color
    case None => FallbackColor
  }

  function CategoryItems(d: Dict): seq<ChartItem> {
    if d == [] then [] else [ChartItem(d[0].0, d[0].1, Some(ColorOf(d[0].0)))] + CategoryItems(d[1..])
  }

  /** `prepareCategoryData`: nothing before the summary has arrived, then one
      row per key of `expensesByCategory`, in key order, with the key's value
      and its colour. */
  function PrepareCategoryData(data: Option<Summary>): (items: seq<ChartItem>)
    ensures data.None? ==> items == []
    ensures data.Some? ==>
              var d := data.value.expensesByCategory;
              && |items| == |d|
              && forall i :: 0 <= i < |d| ==>
                   items[i] == ChartItem(d[i].0, d[i].1, Some(if Lookup(d[i].0).Some? then Lookup(d[i].0).value.color
                                                             else FallbackColor))
  {
    if data.None? then [] else
      var d := data.value.expensesByCategory;
      CategoryItemsAt(d);
      CategoryItems(d)
  }

  lemma {:induction false} CategoryItemsAt(d: Dict)
    ensures |CategoryItems(d)| == |d|
    ensures forall i :: 0 <= i < |d| ==> CategoryItems(d)[i] == ChartItem(d[i].0, d[i].1, Some(ColorOf(d[i].0)))
    decreases |d|
  {
    if d != [] {
      CategoryItemsAt(d[1..]);
      forall i | 0 < i < |d| ensures CategoryItems(d)[i] == ChartItem(d[i].0, d[i].1, Some(ColorOf(d[i].0))) {
        assert CategoryItems(d)[i] == CategoryItems(d[1..])[i - 1];
        assert d[i] == d[1..][i - 1];
      }
    }
  }

  /** `prepareSubcategoryData`: nothing while no category is selected or
      before the summary has arrived; then one row per subcategory of the
      selected category, in taxonomy order, valued 0 when the summary has no
      entry for it. The selection is always a taxonomy key. */
  function PrepareSubcategoryData(selected: Option<string>, data: Option<Summary>): (items: seq<ChartItem>)
    requires selected.None? || Lookup(selected.value).Some?
    ensures selected.None? || data.None? ==> items == []
    ensures selected.Some? && data.Some? ==>
              var subs := Lookup(selected.value).value.subcategories;
              && |items| == |subs|
              && forall i :: 0 <= i < |subs| ==>
                   && items[i].name == subs[i] && items[i].color.None?
                   && (if subs[i] in Keys(data.value.expensesBySubcategory)
                       then Some(items[i].value) == Get(data.value.expensesBySubcategory, subs[i])
                       else items[i].value == 0)
  {
    if selected.None? || data.None? then [] else
      var subs := Lookup(selected.value).value.subcategories;
      var d := data.value.expensesBySubcategory;
      var items := seq(|subs|, i requires 0 <= i < |subs| => ChartItem(subs[i], Get(d, subs[i]).GetOr(0), None));
      forall i | 0 <= i < |subs| && subs[i] !in Keys(d) ensures Get(d, subs[i]) == None {
        GetAbsent(d, subs[i]);
      }
      forall i | 0 <= i < |subs| && subs[i] in Keys(d) ensures Get(d, subs[i]).Some? {
        GetPresent(d, subs[i]);
      }
      items
  }

  lemma {:induction false} GetAbsent(d: Dict, k: string)
    requires k !in Keys(d)
    ensures Get(d, k) == None
    decreases |d|
  {
    if d != [] {
      assert Keys(d)[0] == d[0].0;
      assert Keys(d[1..]) == Keys(d)[1..];
      GetAbsent(d[1..], k);
    }
  }

  lemma {:induction false} GetPresent(d: Dict, k: string)
    requires k in Keys(d)
    ensures Get(d, k).Some?
    decreases |d|
  {
    if d[0].0 != k {
      assert Keys(d)[0] == d[0].0;
      assert Keys(d[1..]) == Keys(d)[1..];
      GetPresent(d[1..], k);
    }
  }

  /** The sum of a chart's values. */
  function ChartTotal(items: seq<ChartItem>): int {
    if items == [] then 0 else items[0].value + ChartTotal(items[1..])
  }

  lemma {:induction false} CategoryItemsTotal(d: Dict)
    ensures ChartTotal(CategoryItems(d)) == SumValues(d)
    decreases |d|
  {
    if d != [] {
      CategoryItemsTotal(d[1..]);
    }
  }

  /** The names of a chart's rows, in order. */
  function Names(items: seq<ChartItem>): (ns: seq<string>)
    ensures |ns| == |items|
    ensures forall i :: 0 <= i < |items| ==> ns[i] == items[i].name
  {
    seq(|items|, i requires 0 <= i < |items| => items[i].name)
  }

  /** The category chart of a well-formed dictionary shows each key once,
      in key order, with its value, and its values add up to the
      dictionary's. */
  lemma {:induction false} CategoryChartOfDict(d: Dict)
    requires Wellformed(d)
    ensures var items := CategoryItems(d);
      && ChartTotal(items) == SumValues(d)
      && Names(items) == Keys(d)
      && (forall i, j :: 0 <= i < j < |items| ==> items[i].name != items[j].name)
      && (forall i :: 0 <= i < |items| ==> Get(d, items[i].name) == Some(items[i].value))
  {
    var items := CategoryItems(d);
    CategoryItemsAt(d);
    CategoryItemsTotal(d);
    forall i | 0 <= i < |items| ensures Get(d, items[i].name) == Some(items[i].value) {
      GetEntry(d, i);
    }
  }

  /** The category chart of grouped expenses: one row per category present,
      each holding that category's total, the rows adding up to the total
      of all the expenses. */
  lemma {:induction false} CategoryChartOfExpenses(expenses: seq<Expense>)
    ensures var items := CategoryItems(Grouped(expenses, ByCategory));
      && ChartTotal(items) == SumOf(expenses, ExpenseAmount)
      && (forall i, j :: 0 <= i < j < |items| ==> items[i].name != items[j].name)
      && (forall k :: k in Names(items) <==> k in KeySet(expenses, ByCategory))
      && (forall i :: 0 <= i < |items| ==> items[i].value == SumFor(expenses, ByCategory, items[i].name))
  {
    var d := Grouped(expenses, ByCategory);
    var items := CategoryItems(d);
    GroupedEntries(expenses, ByCategory);
    GroupedTotal(expenses, ByCategory);
    CategoryChartOfDict(d);
    forall i | 0 <= i < |items| ensures items[i].value == SumFor(expenses, ByCategory, items[i].name) {
      assert items[i].name == Names(items)[i];
      assert items[i].name in Keys(d);
    }
  }

  /** The "Total Expenses" figure: `totalIncome - totalRemaining`. */
  function DisplayedTotal(s: Summary): (shown: int)
    ensures s.totalRemaining == s.totalIncome - s.totalExpenses ==> shown == s.totalExpenses
  {
    s.totalIncome - s.totalRemaining
  }

  /** `data` after `fetchFinanceData` has run for a request with the given
      query parameters: the body's `data` when the response is ok, and
      nothing otherwise (the page then shows its error instead). */
  function FetchedData(session: Option<string>, month: int, year: int,
                       incomeRows: seq<Income>, expenseRows: seq<Expense>, storeFails: bool): (data: Option<Summary>)
    ensures data.Some? <==> SignedIn(session) && ValidMonthYear(month, year) && !storeFails
    ensures data.Some? ==> data.value.month == month && data.value.year == year
  {
    SummaryRefusals(session, month, year, incomeRows, expenseRows, storeFails);
    var r := SummaryResponse(session, month, year, incomeRows, expenseRows, storeFails);
    if r.status == 200 then r.data else None
  }

  /** The request as the page sends it: `/api/dashboardinfo` with no query
      string, so both parameters read as 0. */
  function PageDataAsWritten(session: Option<string>, incomeRows: seq<Income>, expenseRows: seq<Expense>,
                             storeFails: bool): Option<Summary>
  {
    FetchedData(session, 0, 0, incomeRows, expenseRows, storeFails)
  }

  /** As written, the page never gets a summary: the route refuses the
      request with 400 for every user and every table, so both charts stay
      empty. */
  lemma {:induction false} PageNeverReceivesSummary(session: Option<string>, incomeRows: seq<Income>,
                                                    expenseRows: seq<Expense>, storeFails: bool, selected: Option<string>)
    requires SignedIn(session)
    requires selected.None? || Lookup(selected.value).Some?
    ensures SummaryResponse(session, 0, 0, incomeRows, expenseRows, storeFails).status == 400
    ensures PageDataAsWritten(session, incomeRows, expenseRows, storeFails) == None
    ensures PrepareCategoryData(PageDataAsWritten(session, incomeRows, expenseRows, storeFails)) == []
    ensures PrepareSubcategoryData(selected, PageDataAsWritten(session, incomeRows, expenseRows, storeFails)) == []
  {
    SummaryRefusals(session, 0, 0, incomeRows, expenseRows, storeFails);
  }

  /** The request the page evidently means to send: the month and year being
      viewed as query parameters. */
  function PageData(session: Option<string>, month: int, year: int,
                    incomeRows: seq<Income>, expenseRows: seq<Expense>, storeFails: bool): Option<Summary>
  {
    FetchedData(session, month, year, incomeRows, expenseRows, storeFails)
  }

  /** With the month and year sent, a signed-in user's page receives the
      summary of that month. Its category chart then has exactly one row
      per category spent on, each holding that category's total, and the
      rows add up to the displayed "Total Expenses", which is the month's
      total spending. */
  lemma {:induction false} PageShowsTheMonth(session: Option<string>, month: int, year: int,
                                             incomeRows: seq<Income>, expenseRows: seq<Expense>)
    requires SignedIn(session) && ValidMonthYear(month, year)
    ensures var data := PageData(session, month, year, incomeRows, expenseRows, false);
      var expenses := SelectedExpenses(expenseRows, session.value, month, year);
      var items := PrepareCategoryData(data);
      && data.Some? && data.value.month == month && data.value.year == year
      && DisplayedTotal(data.value) == SumOf(expenses, ExpenseAmount)
      && ChartTotal(items) == DisplayedTotal(data.value)
      && (forall i, j :: 0 <= i < j < |items| ==> items[i].name != items[j].name)
      && (forall k :: k in Names(items) <==> k in KeySet(expenses, ByCategory))
      && (forall i :: 0 <= i < |items| ==> items[i].value == SumFor(expenses, ByCategory, items[i].name))
  {
    var expenses := SelectedExpenses(expenseRows, session.value, month, year);
    var data := PageData(session, month, year, incomeRows, expenseRows, false);
    assert data.Some? && data.value.expensesByCategory == Grouped(expenses, ByCategory);
    assert PrepareCategoryData(data) == CategoryItems(Grouped(expenses, ByCategory));
    CategoryChartOfExpenses(expenses);
  }

  /** With a category selected, each of its subcategories shows the month's
      total spending under that exact subcategory name, 0 when there was
      none. */
  lemma {:induction false} SubcategoryChartShowsTheMonth(session: Option<string>, month: int, year: int,
                                                         incomeRows: seq<Income>, expenseRows: seq<Expense>,
                                                         category: string)
    requires SignedIn(session) && ValidMonthYear(month, year) && category in CategoryKeys()
    ensures var data := PageData(session, month, year, incomeRows, expenseRows, false);
      var expenses := SelectedExpenses(expenseRows, session.value, month, year);
      var subs := Lookup(category).value.subcategories;
      var items := PrepareSubcategoryData(Some(category), data);
      && |items| == |subs|
      && (forall i :: 0 <= i < |subs| ==>
            items[i].name == subs[i] && items[i].value == SumFor(expenses, BySubcategory, subs[i]))
  {
    DropdownOffersOnlyKeys(category);
    var data := PageData(session, month, year, incomeRows, expenseRows, false);
    var expenses := SelectedExpenses(expenseRows, session.value, month, year);
    SummaryContents(session, month, year, incomeRows, expenseRows);
    var subs := Lookup(category).value.subcategories;
    var items := PrepareSubcategoryData(Some(category), data);
    forall i | 0 <= i < |subs| ensures items[i].value == SumFor(expenses, BySubcategory, subs[i]) {
      if subs[i] !in KeySet(expenses, BySubcategory) {
        SumForAbsent(expenses, BySubcategory, subs[i]);
      }
    }
  }
}
