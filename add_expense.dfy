/** The `addExpense` server action: a signed-in user submits the expense
    form, the fields are checked, and one row is written to the expenses
    table. */
module ExpenseActions {
  import opened Common
  import opened Calendar
  import opened Store

  /** The submitted form. A missing text field reads as "" (both are falsy);
      `amount` is `parseFloat` of its field, `None` standing for NaN. */
  datatype ExpenseForm = ExpenseForm(category: string, subCategory: string, amount: Option<int>, date: DateField)

  /** The only field check: category and subcategory present, amount a
      number. Neither the date nor the sign of the amount is looked at. */
  predicate AcceptedForm(f: ExpenseForm) {
    f.category != "" && f.subCategory != "" && f.amount.Some?
  }

  /** The row the store writes for an accepted form whose date it can store. */
  function NewExpense(user: string, f: ExpenseForm): Expense
    requires f.amount.Some? && StoredDate(f.date).Some?
  {
    Expense(user, f.category, f.subCategory, f.amount.value, StoredDate(f.date).value)
  }

  /** What `addExpense` returns. The checks run in order: the session, then
      the fields, then the write, which fails when the date is invalid or
      the store throws. */
  function AddExpenseResult(session: Option<string>, f: ExpenseForm, storeFails: bool): (r: ActionResult)
    ensures r.Added? <==> SignedIn(session) && AcceptedForm(f) && StoredDate(f.date).Some? && !storeFails
    ensures !SignedIn(session) ==> r == Refused("User not authenticated.")
    ensures SignedIn(session) && !AcceptedForm(f) ==> r == Refused("Invalid input data.")
    ensures SignedIn(session) && AcceptedForm(f) && r.Refused? ==> r.error == "Database error."
    ensures r.Added? ==> r.message == "Expense added successfully!"
  {
    if !SignedIn(session) then Refused("User not authenticated.")
    else if !AcceptedForm(f) then Refused("Invalid input data.")
    else if StoredDate(f.date).None? || storeFails then Refused("Database error.")
    else Added("Expense added successfully!")
  }

  /** The expenses table after the call: one new row at the end when the
      call succeeds, the same table otherwise. */
  function ExpensesAfter(rows: seq<Expense>, session: Option<string>, f: ExpenseForm, storeFails: bool): seq<Expense> {
    if AddExpenseResult(session, f, storeFails).Added? then rows + [NewExpense(session.value, f)] else rows
  }

  /** The expenses table of the store. */
  class ExpenseTable {
    var rows: seq<Expense>

    constructor (initial: seq<Expense>)
      ensures rows == initial
    {
      rows := initial;
    }

    method AddExpense(session: Option<string>, f: ExpenseForm, storeFails: bool) returns (r: ActionResult)
      modifies this
      ensures r == AddExpenseResult(session, f, storeFails)
      ensures rows == ExpensesAfter(old(rows), session, f, storeFails)
    {
      if !SignedIn(session) {
        return Refused("User not authenticated.");
      }
      if f.category == "" || f.subCategory == "" || f.amount.None? {
        return Refused("Invalid input data.");
      }
      var at := StoredDate(f.date);
      if at.None? || storeFails {
        return Refused("Database error.");
      }
      rows := rows + [Expense(session.value, f.category, f.subCategory, f.amount.value, at.value)];
      r := Added("Expense added successfully!");
    }
  }

  /** Existing rows are never touched: a refused call leaves the table as it
      was, and a successful one adds exactly the submitted row, owned by the
      caller, after them. */
  lemma {:induction false} AddExpenseAppendsOneRow(rows: seq<Expense>, session: Option<string>, f: ExpenseForm, storeFails: bool)
    ensures var after := ExpensesAfter(rows, session, f, storeFails);
      && after[..|rows|] == rows
      && |after| == |rows| + (if AddExpenseResult(session, f, storeFails).Added? then 1 else 0)
      && (|after| > |rows| ==>
            var e := after[|rows|];
            && e.clerkId == session.value && e.category == f.category && e.subCategory == f.subCategory
            && Some(e.amount) == f.amount && Some(e.date) == StoredDate(f.date))
  {
    var after := ExpensesAfter(rows, session, f, storeFails);
    if AddExpenseResult(session, f, storeFails).Added? {
      assert after[..|rows|] == rows;
    }
  }

  /** Nothing is deduplicated: submitting the same form twice stores the
      row twice more. */
  lemma {:induction false} IdenticalSubmissionsAddTwoRows(rows: seq<Expense>, session: Option<string>, f: ExpenseForm)
    requires AddExpenseResult(session, f, false).Added?
    ensures var twice := ExpensesAfter(ExpensesAfter(rows, session, f, false), session, f, false);
      && |twice| == |rows| + 2
      && multiset(twice)[NewExpense(session.value, f)] == multiset(rows)[NewExpense(session.value, f)] + 2
  {
    var e := NewExpense(session.value, f);
    assert ExpensesAfter(ExpensesAfter(rows, session, f, false), session, f, false) == rows + [e] + [e];
    assert multiset(rows + [e] + [e]) == multiset(rows) + multiset{e} + multiset{e};
  }

  /** The amount's sign is not checked: any number, zero and negative ones
      included, is stored as submitted. */
  lemma {:induction false} AnyAmountIsStored(rows: seq<Expense>, session: Option<string>, category: string,
                                            subCategory: string, amount: int, at: Instant)
    requires SignedIn(session) && category != "" && subCategory != ""
    ensures var f := ExpenseForm(category, subCategory, Some(amount), Parsed(at));
      ExpensesAfter(rows, session, f, false) == rows + [Expense(session.value, category, subCategory, amount, at)]
  {
  }
}
