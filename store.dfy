/** The two record tables and the query forms the handlers use on them:
    `findMany` with a `where` filter and an optional `orderBy: { date }`, and
    the `reduce` that totals amounts. Surrogate row ids are not modelled. */
module Store {
  import opened Common
  import opened Calendar

  /** A row of the expenses table. */
  datatype Expense = Expense(clerkId: string, category: string, subCategory: string, amount: int, date: Instant)

  /** A row of the income table. */
  datatype Income = Income(clerkId: string, source: string, amount: int, date: Instant)

  /** The `date` field of a submitted form: missing (`null`), the empty
      string, text that does not parse as a date, or text that parses to an
      instant. */
  datatype DateField = Absent | Empty | Unparsable | Parsed(at: Instant)

  /** The instant that `new Date(field)` gives the store, `None` for an
      Invalid Date, which the store refuses to write. `new Date(null)` is
      the epoch. */
  function StoredDate(f: DateField): (at: Option<Instant>)
    ensures at.None? <==> f.Empty? || f.Unparsable?
    ensures f.Absent? ==> at == Some(Instant(Date(1970, 1, 1), 0))
    ensures f.Parsed? ==> at == Some(f.at)
  {
    match f
    case Absent => Some(Instant(Date(1970, 1, 1), 0))
    case Empty => None
    case Unparsable => None
    case Parsed(t) => Some(t)
  }

  /** `findMany({ where })`: the rows that satisfy `p`, in table order. */
  function Where<T>(rows: seq<T>, p: T -> bool): (kept: seq<T>)
    ensures |kept| <= |rows|
  {
    if rows == [] then []
    else if p(rows[0]) then [rows[0]] + Where(rows[1..], p)
    else Where(rows[1..], p)
  }

  /** `Where` keeps each row that satisfies `p` as often as the table holds
      it, and no other row. */
  lemma {:induction false} WhereCounts<T(!new)>(rows: seq<T>, p: T -> bool)
    ensures forall x :: multiset(Where(rows, p))[x] == if p(x) then multiset(rows)[x] else 0
    ensures forall x :: x in Where(rows, p) <==> x in rows && p(x)
    decreases |rows|
  {
    if rows != [] {
      assert rows == [rows[0]] + rows[1..];
      WhereCounts(rows[1..], p);
    }
  }

  /** `a` may come before `b` in an `orderBy: { date }` result: ascending
      when `desc` is false, descending when it is true. */
  predicate InOrder(a: Instant, b: Instant, desc: bool) {
    if desc then NotAfter(b, a) else NotAfter(a, b)
  }

  predicate SortedByDate<T>(s: seq<T>, at: T -> Instant, desc: bool) {
    forall i, j :: 0 <= i < j < |s| ==> InOrder(at(s[i]), at(s[j]), desc)
  }

  /** Inserts `x` into a sequence before the first element it may precede. */
  function InsertByDate<T>(x: T, s: seq<T>, at: T -> Instant, desc: bool): seq<T> {
    if s == [] then [x]
    else if InOrder(at(x), at(s[0]), desc) then [x] + s
    else [s[0]] + InsertByDate(x, s[1..], at, desc)
  }

  /** `InOrder` is total and transitive for either direction. */
  lemma {:induction false} InOrderIsTotalPreorder(a: Instant, b: Instant, c: Instant, desc: bool)
    ensures InOrder(a, b, desc) || InOrder(b, a, desc)
    ensures InOrder(a, b, desc) && InOrder(b, c, desc) ==> InOrder(a, c, desc)
  {
    NotAfterIsTotalPreorder(a, b, c);
    NotAfterIsTotalPreorder(c, b, a);
  }

  /** Putting in front of a sorted sequence an element that may precede its
      first one keeps it sorted. */
  lemma {:induction false} PrependSorted<T>(x: T, s: seq<T>, at: T -> Instant, desc: bool)
    requires SortedByDate(s, at, desc)
    requires s != [] ==> InOrder(at(x), at(s[0]), desc)
    ensures SortedByDate([x] + s, at, desc)
  {
    var r := [x] + s;
    forall i, j | 0 <= i < j < |r| ensures InOrder(at(r[i]), at(r[j]), desc) {
      if i == 0 {
        if j > 1 {
          InOrderIsTotalPreorder(at(x), at(s[0]), at(s[j - 1]), desc);
        }
      } else {
        assert r[i] == s[i - 1] && r[j] == s[j - 1];
      }
    }
  }

  /** Inserting into a sorted sequence keeps it sorted and adds exactly `x`. */
  lemma {:induction false} InsertByDateCorrect<T>(x: T, s: seq<T>, at: T -> Instant, desc: bool)
    requires SortedByDate(s, at, desc)
    ensures multiset(InsertByDate(x, s, at, desc)) == multiset(s) + multiset{x}
    ensures SortedByDate(InsertByDate(x, s, at, desc), at, desc)
    ensures InsertByDate(x, s, at, desc)[0] == x || (s != [] && InsertByDate(x, s, at, desc)[0] == s[0])
    decreases |s|
  {
    if s == [] {
    } else if InOrder(at(x), at(s[0]), desc) {
      PrependSorted(x, s, at, desc);
    } else {
      assert s == [s[0]] + s[1..];
      var tail := s[1..];
      assert SortedByDate(tail, at, desc) by {
        forall i, j | 0 <= i < j < |tail| ensures InOrder(at(tail[i]), at(tail[j]), desc) {
          assert tail[i] == s[i + 1] && tail[j] == s[j + 1];
        }
      }
      InsertByDateCorrect(x, tail, at, desc);
      var rest := InsertByDate(x, tail, at, desc);
      InOrderIsTotalPreorder(at(x), at(s[0]), at(x), desc);
      PrependSorted(s[0], rest, at, desc);
    }
  }

  /** The rows ordered by date, as `orderBy: { date: "asc" }` (`desc` false)
      or `orderBy: { date: "desc" }` (`desc` true) returns them: the same
      rows, each as often as before, in date order. */
  function SortByDate<T>(rows: seq<T>, at: T -> Instant, desc: bool): (r: seq<T>)
    ensures multiset(r) == multiset(rows)
    ensures SortedByDate(r, at, desc)
  {
    if rows == [] then []
    else
      assert rows == [rows[0]] + rows[1..];
      var rest := SortByDate(rows[1..], at, desc);
      InsertByDateCorrect(rows[0], rest, at, desc);
      InsertByDate(rows[0], rest, at, desc)
  }

  /** `rows.reduce((sum, r) => sum + amount(r), 0)`. */
  function SumOf<T>(rows: seq<T>, amount: T -> int): (total: int)
    ensures (forall i :: 0 <= i < |rows| ==> amount(rows[i]) >= 0) ==> total >= 0
  {
    if rows == [] then 0 else SumOf(rows[..|rows| - 1], amount) + amount(rows[|rows| - 1])
  }

  /** Reordering rows does not change their total. */
  lemma {:induction false} SumOfPermutation<T>(a: seq<T>, b: seq<T>, amount: T -> int)
    requires multiset(a) == multiset(b)
    ensures SumOf(a, amount) == SumOf(b, amount)
    decreases |a|
  {
    if a != [] {
      var a', x := a[..|a| - 1], a[|a| - 1];
      assert a == a' + [x];
      assert x in multiset(b);
      var k :| 0 <= k < |b| && b[k] == x;
      var b' := b[..k] + b[k + 1..];
      RemoveFromMultiset(a', b, k);
      SumOfPermutation(a', b', amount);
      SumOfRemove(b, k, amount);
    }
  }

  /** Taking the same element out of two sequences with equal multisets
      leaves sequences with equal multisets. */
  lemma {:induction false} RemoveFromMultiset<T>(a': seq<T>, b: seq<T>, k: nat)
    requires k < |b| && multiset(a' + [b[k]]) == multiset(b)
    ensures multiset(a') == multiset(b[..k] + b[k + 1..])
  {
    var x := b[k];
    assert b == b[..k] + [x] + b[k + 1..];
    var ma, mb := multiset(a'), multiset(b[..k] + b[k + 1..]);
    assert multiset(b) == mb + multiset{x};
    assert ma + multiset{x} == mb + multiset{x};
    assert ma == (ma + multiset{x}) - multiset{x};
    assert mb == (mb + multiset{x}) - multiset{x};
  }

  /** Taking one row out of a sequence takes its amount out of the total. */
  lemma {:induction false} SumOfRemove<T>(s: seq<T>, k: nat, amount: T -> int)
    requires k < |s|
    ensures SumOf(s, amount) == SumOf(s[..k] + s[k + 1..], amount) + amount(s[k])
    decreases |s|
  {
    var last := |s| - 1;
    if k < last {
      var init := s[..last];
      SumOfRemove(init, k, amount);
      var rest := init[..k] + init[k + 1..];
      assert s[..k] + s[k + 1..] == rest + [s[last]] by {
        assert init[..k] == s[..k];
        assert init[k + 1..] + [s[last]] == s[k + 1..];
      }
      SumOfSnoc(rest, s[last], amount);
      assert s == init + [s[last]];
      SumOfSnoc(init, s[last], amount);
    } else {
      assert s[..k] + s[k + 1..] == s[..last];
      assert s == s[..last] + [s[last]];
      SumOfSnoc(s[..last], s[last], amount);
    }
  }

  /** Filtering a sequence with one more row at the end filters that row on
      its own. */
  lemma {:induction false} WhereSnoc<T>(rows: seq<T>, x: T, p: T -> bool)
    ensures Where(rows + [x], p) == Where(rows, p) + (if p(x) then [x] else [])
    decreases |rows|
  {
    if rows == [] {
      assert rows + [x] == [x];
    } else {
      assert (rows + [x])[0] == rows[0] && (rows + [x])[1..] == rows[1..] + [x];
      WhereSnoc(rows[1..], x, p);
    }
  }

  /** The total of a sequence with one more row at the end. */
  lemma {:induction false} SumOfSnoc<T>(rows: seq<T>, x: T, amount: T -> int)
    ensures SumOf(rows + [x], amount) == SumOf(rows, amount) + amount(x)
  {
    assert (rows + [x])[..|rows|] == rows;
  }
}
