/** The expense listing route (`GET /api/expenses`): all of the caller's
    expense rows, with no date filter, oldest first. */
module ExpensesRoute {
  import opened Common
  import opened Calendar
  import opened Store

  /** The `where` clause of the query. */
  function OwnedBy(user: string): Expense -> bool {
    (e: Expense) => e.clerkId == user
  }

  function ExpenseDate(e: Expense): Instant { e.date }

  /** What the route answers, given the session, the expense table and
      whether the query throws. A success is `{ success: true, data }` with
      exactly the caller's rows, each as often as the table holds it, in
      ascending date order (the query says `asc`, whatever its comment says). */
  function ListExpenses(session: Option<string>, rows: seq<Expense>, storeFails: bool): (resp: Response<seq<Expense>>)
    ensures !SignedIn(session) ==> resp == Response(401, Some(false), None, Some("User not authenticated."))
    ensures SignedIn(session) && storeFails ==>
              resp == Response(500, Some(false), None, Some("Failed to fetch expenses."))
    ensures SignedIn(session) && !storeFails ==>
              && resp.status == 200 && resp.success == Some(true) && resp.error.None? && resp.data.Some?
              && (forall e :: multiset(resp.data.value)[e]
                               == if e.clerkId == session.value then multiset(rows)[e] else 0)
              && SortedByDate(resp.data.value, ExpenseDate, false)
  {
    if !SignedIn(session) then Refusal(401, "User not authenticated.")
    else if storeFails then Refusal(500, "Failed to fetch expenses.")
    else
      WhereCounts(rows, OwnedBy(session.value));
      Response(200, Some(true), Some(SortByDate(Where(rows, OwnedBy(session.value)), ExpenseDate, false)), None)
  }

  /** Oldest first: no returned row is dated before the one before it; and
      another user's row is never returned, whatever its date. */
  lemma {:induction false} ListedExpensesAreOwnAndOldestFirst(session: Option<string>, rows: seq<Expense>)
    requires SignedIn(session)
    ensures var listed := ListExpenses(session, rows, false).data.value;
      && (forall j :: 0 < j < |listed| ==> NotAfter(listed[j - 1].date, listed[j].date))
      && (forall e :: e in listed <==> e in rows && e.clerkId == session.value)
      && |listed| == |Where(rows, OwnedBy(session.value))|
  {
    var listed := ListExpenses(session, rows, false).data.value;
    WhereCounts(rows, OwnedBy(session.value));
    forall e ensures e in listed <==> e in rows && e.clerkId == session.value {
      assert e in listed <==> multiset(listed)[e] > 0;
      assert e in rows <==> multiset(rows)[e] > 0;
    }
    assert multiset(listed) == multiset(Where(rows, OwnedBy(session.value)));
    assert |multiset(listed)| == |listed|;
  }
}
