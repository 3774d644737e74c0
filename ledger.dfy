/**
 * The records of the store (expense_app.py:8-27) and the queries the budget engine runs
 * against them: the filtered spend sum (87-90, 142-145), the per-month sum behind the
 * monthly report (120-123), and the budget lookup and upsert (84, 109-116, 147).
 */
module Ledger {
  import opened Wrappers
  import opened Calendar

  /** A row of the `expenses` table; `id` is the store-assigned primary key. */
  datatype Expense = Expense(id: nat, date: Date, category: string, amount: real)

  /** A row of the `budgets` table: the limit declared for one (month, category). */
  datatype Budget = Budget(id: nat, month: string, category: string, limit: real)

  // ---------------------------------------------------------------- spend sums

  /** The filter of the spend query: same category, date inside the month key. */
  predicate Matches(e: Expense, category: string, month: string) {
    e.category == category && MonthKey(e.date) == month
  }

  /**
   * `SUM(amount) ... WHERE category = ? AND strftime('%Y-%m', date) = ?`, with
   * `or 0` turning the SQL NULL of an empty match into 0.
   */
  function Spent(exps: seq<Expense>, category: string, month: string): (r: real)
    ensures NonNegativeAmounts(exps) ==> 0.0 <= r <= MonthTotal(exps, month)
  {
    if exps == [] then 0.0
    else
      var e := exps[|exps| - 1];
      Spent(exps[..|exps| - 1], category, month) + (if Matches(e, category, month) then e.amount else 0.0)
  }

  /** `SUM(amount)` over one month group of the monthly report. */
  function MonthTotal(exps: seq<Expense>, month: string): (r: real)
    ensures NonNegativeAmounts(exps) ==> 0.0 <= r <= Total(exps)
  {
    if exps == [] then 0.0
    else
      var e := exps[|exps| - 1];
      MonthTotal(exps[..|exps| - 1], month) + (if MonthKey(e.date) == month then e.amount else 0.0)
  }

  /** The sum of all recorded amounts. */
  function Total(exps: seq<Expense>): real {
    if exps == [] then 0.0 else Total(exps[..|exps| - 1]) + exps[|exps| - 1].amount
  }

  /** Every recorded amount is at least 0, as the amount check guarantees. */
  predicate NonNegativeAmounts(exps: seq<Expense>) {
    exps == [] || (NonNegativeAmounts(exps[..|exps| - 1]) && exps[|exps| - 1].amount >= 0.0)
  }

  /** The rows the spend query selects, in store order. */
  function Matching(exps: seq<Expense>, category: string, month: string): (r: seq<Expense>)
    ensures forall e :: e in r <==> e in exps && Matches(e, category, month)
    ensures forall e :: multiset(r)[e] == if Matches(e, category, month) then multiset(exps)[e] else 0
    ensures |r| <= |exps|
  {
    if exps == [] then []
    else
      var init := exps[..|exps| - 1];
      var e := exps[|exps| - 1];
      assert exps == init + [e];
      Matching(init, category, month) + (if Matches(e, category, month) then [e] else [])
  }

  /** Spent is the total of exactly the expenses of that category dated in that month. */
  lemma {:induction false} SpentIsTotalOfMatching(exps: seq<Expense>, category: string, month: string)
    ensures Spent(exps, category, month) == Total(Matching(exps, category, month))
  {
    if exps != [] {
      var init := exps[..|exps| - 1];
      var e := exps[|exps| - 1];
      SpentIsTotalOfMatching(init, category, month);
      var m := Matching(init, category, month);
      if Matches(e, category, month) {
        assert Matching(exps, category, month) == m + [e];
        TotalAppend(m, e);
      } else {
        assert Matching(exps, category, month) == m + [];
        assert m + [] == m;
      }
    }
  }

  lemma TotalAppend(s: seq<Expense>, e: Expense)
    ensures Total(s + [e]) == Total(s) + e.amount
  {
    assert (s + [e])[..|s|] == s;
  }

  /** With no matching expense the spend is 0 (the `or 0` case), whatever else is stored. */
  lemma {:induction false} SpentWithoutMatches(exps: seq<Expense>, category: string, month: string)
    requires forall e :: e in exps ==> !Matches(e, category, month)
    ensures Spent(exps, category, month) == 0.0
  {
    if exps != [] {
      var init := exps[..|exps| - 1];
      assert forall e :: e in init ==> e in exps;
      SpentWithoutMatches(init, category, month);
    }
  }

  /** Appending one expense adds its amount to exactly the (category, month) it matches. */
  lemma SpentAfterAppend(exps: seq<Expense>, e: Expense, category: string, month: string)
    ensures Spent(exps + [e], category, month)
         == Spent(exps, category, month) + (if Matches(e, category, month) then e.amount else 0.0)
  {
  }

  /** Food 10 and Food 20 and Rent 5, all in June 2024: Food spent 30 in June, Rent 5. */
  lemma JuneExample()
    ensures var june := MonthKey(YearMonthDay(2024, 6, 1));
            var exps := [Expense(1, YearMonthDay(2024, 6, 1), "Food", 10.0),
                         Expense(2, YearMonthDay(2024, 6, 15), "Food", 20.0),
                         Expense(3, YearMonthDay(2024, 6, 30), "Rent", 5.0)];
            Spent(exps, "Food", june) == 30.0 && Spent(exps, "Rent", june) == 5.0
  {
    var june := MonthKey(YearMonthDay(2024, 6, 1));
    SameMonthKey(YearMonthDay(2024, 6, 1), YearMonthDay(2024, 6, 15));
    SameMonthKey(YearMonthDay(2024, 6, 1), YearMonthDay(2024, 6, 30));
    var e1 := Expense(1, YearMonthDay(2024, 6, 1), "Food", 10.0);
    var e2 := Expense(2, YearMonthDay(2024, 6, 15), "Food", 20.0);
    var e3 := Expense(3, YearMonthDay(2024, 6, 30), "Rent", 5.0);
    assert [] + [e1] == [e1] && [e1] + [e2] == [e1, e2] && [e1, e2] + [e3] == [e1, e2, e3];
    SpentAfterAppend([], e1, "Food", june);
    SpentAfterAppend([e1], e2, "Food", june);
    SpentAfterAppend([e1, e2], e3, "Food", june);
    SpentAfterAppend([], e1, "Rent", june);
    SpentAfterAppend([e1], e2, "Rent", june);
    SpentAfterAppend([e1, e2], e3, "Rent", june);
  }

  // ---------------------------------------------------------------- distinct values

  /** The distinct values of `s`, in order of first appearance (SQL `DISTINCT` / `GROUP BY`). */
  function Distinct(s: seq<string>): (d: seq<string>)
    ensures forall x :: x in d <==> x in s
    ensures forall i, j :: 0 <= i < j < |d| ==> d[i] != d[j]
  {
    if s == [] then []
    else
      var init := s[..|s| - 1];
      var x := s[|s| - 1];
      assert s == init + [x];
      var d := Distinct(init);
      if x in d then d else d + [x]
  }

  function MonthsOf(exps: seq<Expense>): (ms: seq<string>)
    ensures forall m :: m in ms <==> exists e :: e in exps && MonthKey(e.date) == m
  {
    if exps == [] then []
    else
      var init := exps[..|exps| - 1];
      var e := exps[|exps| - 1];
      assert exps == init + [e];
      MonthsOf(init) + [MonthKey(e.date)]
  }

  function CategoriesOf(exps: seq<Expense>): (cs: seq<string>)
    ensures forall c :: c in cs <==> exists e :: e in exps && e.category == c
  {
    if exps == [] then []
    else
      var init := exps[..|exps| - 1];
      var e := exps[|exps| - 1];
      assert exps == init + [e];
      CategoriesOf(init) + [e.category]
  }

  // ---------------------------------------------------------------- budgets

  predicate HasKey(b: Budget, month: string, category: string) {
    b.month == month && b.category == category
  }

  /** The UNIQUE(month, category) constraint of the budgets table. */
  predicate UniqueKeys(rows: seq<Budget>) {
    forall i, j :: 0 <= i < j < |rows| ==> rows[i].month != rows[j].month || rows[i].category != rows[j].category
  }

  /** `query(Budget).filter_by(month=, category=).first()`: the position of the first row with that key. */
  function FindBudget(rows: seq<Budget>, month: string, category: string): (r: Option<nat>)
    ensures r.Some? ==> r.value < |rows| && HasKey(rows[r.value], month, category)
    ensures r.Some? ==> forall j :: 0 <= j < r.value ==> !HasKey(rows[j], month, category)
    ensures r.None? <==> forall j :: 0 <= j < |rows| ==> !HasKey(rows[j], month, category)
  {
    if rows == [] then None
    else if HasKey(rows[0], month, category) then Some(0)
    else
      match FindBudget(rows[1..], month, category)
      case None => None
      case Some(i) => Some(i + 1)
  }

  /** The declared limit for (month, category), if a budget exists for it. */
  function LimitFor(rows: seq<Budget>, month: string, category: string): (r: Option<real>)
    ensures r.None? <==> forall j :: 0 <= j < |rows| ==> !HasKey(rows[j], month, category)
    ensures UniqueKeys(rows) ==>
              forall i :: 0 <= i < |rows| && HasKey(rows[i], month, category) ==> r == Some(rows[i].limit)
  {
    match FindBudget(rows, month, category)
    case None => None
    case Some(i) => Some(rows[i].limit)
  }

  /** `budget.amount if budget else 0` (expense_app.py:147-148). */
  function LimitOrZero(rows: seq<Budget>, month: string, category: string): (r: real)
    ensures (forall j :: 0 <= j < |rows| ==> !HasKey(rows[j], month, category)) ==> r == 0.0
    ensures UniqueKeys(rows) ==>
              forall i :: 0 <= i < |rows| && HasKey(rows[i], month, category) ==> r == rows[i].limit
  {
    match LimitFor(rows, month, category)
    case None => 0.0
    case Some(l) => l
  }

  /** The number of rows carrying the key (month, category). */
  function KeyCount(rows: seq<Budget>, month: string, category: string): nat {
    if rows == [] then 0
    else KeyCount(rows[..|rows| - 1], month, category) + (if HasKey(rows[|rows| - 1], month, category) then 1 else 0)
  }

  /** Under the unique constraint, a key is carried by one row exactly when a limit is found for it. */
  lemma {:induction false} KeyCountUnique(rows: seq<Budget>, month: string, category: string)
    requires UniqueKeys(rows)
    ensures KeyCount(rows, month, category) == (if LimitFor(rows, month, category).Some? then 1 else 0)
  {
    if rows != [] {
      var init := rows[..|rows| - 1];
      assert UniqueKeys(init);
      KeyCountUnique(init, month, category);
      if HasKey(rows[|rows| - 1], month, category) {
        assert forall j :: 0 <= j < |init| ==> !HasKey(init[j], month, category);
      } else {
        assert forall j :: 0 <= j < |init| ==> HasKey(init[j], month, category) == HasKey(rows[j], month, category);
      }
    }
  }

  /**
   * set_budget's effect on the table (expense_app.py:109-114): overwrite the limit of the
   * row found for the key in place, or add a new row with the next id.
   */
  function Upsert(rows: seq<Budget>, month: string, category: string, limit: real): (r: seq<Budget>)
    requires UniqueKeys(rows)
    ensures UniqueKeys(r)
    ensures LimitFor(r, month, category) == Some(limit)
    ensures KeyCount(r, month, category) == 1
    ensures forall m, c :: m != month || c != category ==> LimitFor(r, m, c) == LimitFor(rows, m, c)
    ensures FindBudget(rows, month, category).Some? ==> |r| == |rows|
    ensures FindBudget(rows, month, category).None? ==> |r| == |rows| + 1 && r[..|rows|] == rows
    ensures forall i :: 0 <= i < |rows| ==> r[i].id == rows[i].id && HasKey(r[i], rows[i].month, rows[i].category)
  {
    match FindBudget(rows, month, category)
    case Some(i) =>
      var r := rows[i := rows[i].(limit := limit)];
      UpsertKeepsOtherLimits(rows, r, month, category);
      KeyCountUnique(r, month, category);
      r
    case None =>
      var r := rows + [Budget(|rows| + 1, month, category, limit)];
      assert r[..|rows|] == rows;
      UpsertKeepsOtherLimits(rows, r, month, category);
      KeyCountUnique(r, month, category);
      r
  }

  /**
   * Changing or adding only rows that carry the key (month, category) leaves the limit of
   * every other key as it was.
   */
  lemma UpsertKeepsOtherLimits(rows: seq<Budget>, r: seq<Budget>, month: string, category: string)
    requires |rows| <= |r|
    requires forall i :: 0 <= i < |rows| ==> r[i] == rows[i] || (HasKey(r[i], month, category) && HasKey(rows[i], month, category))
    requires forall i :: |rows| <= i < |r| ==> HasKey(r[i], month, category)
    ensures forall m, c :: m != month || c != category ==> LimitFor(r, m, c) == LimitFor(rows, m, c)
  {
  }
}
