/** The `addIncome` server action: a signed-in user submits the income
    form, the fields are checked, and one row is written to the income
    table. */
module IncomeActions {
  import opened Common
  import opened Calendar
  import opened Store

  /** The submitted form. A missing text field reads as "" (both are falsy);
      `amount` is `parseFloat` of its field, `None` standing for NaN. */
  datatype IncomeForm = IncomeForm(source: string, amount: Option<int>, date: DateField)

  /** The only field check: source and date present, amount a number. The
      date text is not parsed here and the sign of the amount is not looked
      at. */
  predicate AcceptedForm(f: IncomeForm) {
    f.source != "" && !f.date.Absent? && !f.date.Empty? && f.amount.Some?
  }

  /** The row the store writes for an accepted form whose date it can store. */
  function NewIncome(user: string, f: IncomeForm): Income
    requires f.amount.Some? && StoredDate(f.date).Some?
  {
    Income(user, f.source, f.amount.value, StoredDate(f.date).value)
  }

  /** What `addIncome` returns. The checks run in order: the session, then
      the fields, then the write, which fails when the date is invalid or
      the store throws. */
  function AddIncomeResult(session: Option<string>, f: IncomeForm, storeFails: bool): (r: ActionResult)
    ensures r.Added? <==> SignedIn(session) && AcceptedForm(f) && StoredDate(f.date).Some? && !storeFails
    ensures !SignedIn(session) ==> r == Refused("User not authenticated.")
    ensures SignedIn(session) && !AcceptedForm(f) ==> r == Refused("Invalid input data.")
    ensures SignedIn(session) && AcceptedForm(f) && r.Refused? ==> r.error == "Database error."
    ensures r.Added? ==> r.message == "Income added successfully!"
  {
    if !SignedIn(session) then Refused("User not authenticated.")
    else if !AcceptedForm(f) then Refused("Invalid input data.")
    else if StoredDate(f.date).None? || storeFails then Refused("Database error.")
    else Added("Income added successfully!")
  }

  /** The income table after the call: one new row at the end when the
      call succeeds, the same table otherwise. */
  function IncomeAfter(rows: seq<Income>, session: Option<string>, f: IncomeForm, storeFails: bool): seq<Income> {
    if AddIncomeResult(session, f, storeFails).Added? then rows + [NewIncome(session.value, f)] else rows
  }

  /** The income table of the store. */
  class IncomeTable {
    var rows: seq<Income>

    constructor (initial: seq<Income>)
      ensures rows == initial
    {
      rows := initial;
    }

    method AddIncome(session: Option<string>, f: IncomeForm, storeFails: bool) returns (r: ActionResult)
      modifies this
      ensures r == AddIncomeResult(session, f, storeFails)
      ensures rows == IncomeAfter(old(rows), session, f, storeFails)
    {
      if !SignedIn(session) {
        return Refused("User not authenticated.");
      }
      if f.source == "" || f.date == Absent || f.date == Empty || f.amount.None? {
        return Refused("Invalid input data.");
      }
      var at := StoredDate(f.date);
      if at.None? || storeFails {
        return Refused("Database error.");
      }
      rows := rows + [Income(session.value, f.source, f.amount.value, at.value)];
      r := Added("Income added successfully!");
    }
  }

  /** Existing rows are never touched: a refused call leaves the table as it
      was, and a successful one adds exactly the submitted row, owned by the
      caller, after them. */
  lemma {:induction false} AddIncomeAppendsOneRow(rows: seq<Income>, session: Option<string>, f: IncomeForm, storeFails: bool)
    ensures var after := IncomeAfter(rows, session, f, storeFails);
      && after[..|rows|] == rows
      && |after| == |rows| + (if AddIncomeResult(session, f, storeFails).Added? then 1 else 0)
      && (|after| > |rows| ==>
            var e := after[|rows|];
            && e.clerkId == session.value && e.source == f.source
            && Some(e.amount) == f.amount && Some(e.date) == StoredDate(f.date))
  {
    var after := IncomeAfter(rows, session, f, storeFails);
    if AddIncomeResult(session, f, storeFails).Added? {
      assert after[..|rows|] == rows;
    }
  }

  /** Nothing is deduplicated: submitting the same form twice stores the
      row twice more. */
  lemma {:induction false} IdenticalSubmissionsAddTwoRows(rows: seq<Income>, session: Option<string>, f: IncomeForm)
    requires AddIncomeResult(session, f, false).Added?
    ensures var twice := IncomeAfter(IncomeAfter(rows, session, f, false), session, f, false);
      && |twice| == |rows| + 2
      && multiset(twice)[NewIncome(session.value, f)] == multiset(rows)[NewIncome(session.value, f)] + 2
  {
    var e := NewIncome(session.value, f);
    assert IncomeAfter(IncomeAfter(rows, session, f, false), session, f, false) == rows + [e] + [e];
    assert multiset(rows + [e] + [e]) == multiset(rows) + multiset{e} + multiset{e};
  }

  /** The amount's sign is not checked: any number, zero and negative ones
      included, is stored as submitted. */
  lemma {:induction false} AnyAmountIsStored(rows: seq<Income>, session: Option<string>, source: string,
                                            amount: int, at: Instant)
    requires SignedIn(session) && source != ""
    ensures var f := IncomeForm(source, Some(amount), Parsed(at));
      IncomeAfter(rows, session, f, false) == rows + [Income(session.value, source, amount, at)]
  {
  }

  /** A missing or empty date is refused as invalid input, while date text
      that does not parse passes the check and fails at the write. */
  lemma {:induction false} DateChecks(session: Option<string>, source: string, amount: int)
    requires SignedIn(session) && source != ""
    ensures AddIncomeResult(session, IncomeForm(source, Some(amount), Absent), false) == Refused("Invalid input data.")
    ensures AddIncomeResult(session, IncomeForm(source, Some(amount), Empty), false) == Refused("Invalid input data.")
    ensures AddIncomeResult(session, IncomeForm(source, Some(amount), Unparsable), false) == Refused("Database error.")
  {
  }
}
