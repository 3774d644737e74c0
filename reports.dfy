/**
 * The two reports: the monthly spending log (expense_app.py:118-130) and spending versus
 * budget for one month (expense_app.py:132-150). Rows come in order of first appearance
 * of their key; the SQL queries promise no order.
 */
module Reports {
  import opened Calendar
  import opened Ledger

  /** One line of the monthly log: a month key and the sum of that month's amounts. */
  datatype MonthRow = MonthRow(month: string, total: real)

  /** One line of spending versus budget: a category, its spend in the month, its limit or 0. */
  datatype SpendRow = SpendRow(category: string, spent: real, limit: real)

  // ---------------------------------------------------------------- monthly log

  function MonthsListed(rows: seq<MonthRow>): (ms: seq<string>)
    ensures |ms| == |rows| && forall i :: 0 <= i < |rows| ==> ms[i] == rows[i].month
  {
    if rows == [] then [] else MonthsListed(rows[..|rows| - 1]) + [rows[|rows| - 1].month]
  }

  function TotalsFor(exps: seq<Expense>, months: seq<string>): (rows: seq<MonthRow>)
    ensures |rows| == |months| && MonthsListed(rows) == months
    ensures forall i :: 0 <= i < |rows| ==> rows[i] == MonthRow(months[i], MonthTotal(exps, months[i]))
  {
    if months == [] then []
    else
      var m := months[|months| - 1];
      TotalsFor(exps, months[..|months| - 1]) + [MonthRow(m, MonthTotal(exps, m))]
  }

  /**
   * `SELECT strftime('%Y-%m', date), SUM(amount) FROM expenses GROUP BY month`: one row per
   * distinct month key present, each with that month's sum; no rows for an empty store.
   */
  function MonthlyTotals(exps: seq<Expense>): (rows: seq<MonthRow>)
    ensures forall i, j :: 0 <= i < j < |rows| ==> rows[i].month != rows[j].month
    ensures forall m :: m in MonthsListed(rows) <==> exists e :: e in exps && MonthKey(e.date) == m
    ensures forall i :: 0 <= i < |rows| ==> rows[i].total == MonthTotal(exps, rows[i].month)
    ensures rows == [] <==> exps == []
  {
    var months := Distinct(MonthsOf(exps));
    assert exps != [] ==> MonthKey(exps[0].date) in months;
    TotalsFor(exps, months)
  }

  function SumTotals(rows: seq<MonthRow>): real {
    if rows == [] then 0.0 else SumTotals(rows[..|rows| - 1]) + rows[|rows| - 1].total
  }

  /** Splitting off the last expense: it adds its amount to the one listed month it belongs to. */
  lemma {:induction false} TotalsForLast(exps: seq<Expense>, months: seq<string>)
    requires exps != []
    requires forall i, j :: 0 <= i < j < |months| ==> months[i] != months[j]
    ensures var e := exps[|exps| - 1];
            (SumTotals(TotalsFor(exps, months))
             == SumTotals(TotalsFor(exps[..|exps| - 1], months)) + (if MonthKey(e.date) in months then e.amount else 0.0))
  {
    if months != [] {
      var init := months[..|months| - 1];
      TotalsForLast(exps, init);
      assert TotalsFor(exps, months)[..|months| - 1] == TotalsFor(exps, init);
      assert TotalsFor(exps[..|exps| - 1], months)[..|months| - 1] == TotalsFor(exps[..|exps| - 1], init);
      assert MonthKey(exps[|exps| - 1].date) == months[|months| - 1] ==> MonthKey(exps[|exps| - 1].date) !in init;
    }
  }

  /** Summing the month totals over a list of distinct months that covers every expense gives the grand total. */
  lemma {:induction false} TotalsForCovering(exps: seq<Expense>, months: seq<string>)
    requires forall i, j :: 0 <= i < j < |months| ==> months[i] != months[j]
    requires forall e :: e in exps ==> MonthKey(e.date) in months
    ensures SumTotals(TotalsFor(exps, months)) == Total(exps)
  {
    if exps == [] {
      TotalsForEmpty(months);
    } else {
      var init := exps[..|exps| - 1];
      assert forall e :: e in init ==> e in exps;
      assert exps[|exps| - 1] in exps;
      TotalsForCovering(init, months);
      TotalsForLast(exps, months);
    }
  }

  lemma {:induction false} TotalsForEmpty(months: seq<string>)
    ensures SumTotals(TotalsFor([], months)) == 0.0
  {
    if months != [] {
      TotalsForEmpty(months[..|months| - 1]);
      assert TotalsFor([], months)[..|months| - 1] == TotalsFor([], months[..|months| - 1]);
    }
  }

  /** The monthly log accounts for every amount exactly once: its totals add up to all spending. */
  lemma MonthlyTotalsAddUp(exps: seq<Expense>)
    ensures SumTotals(MonthlyTotals(exps)) == Total(exps)
  {
    TotalsForCovering(exps, Distinct(MonthsOf(exps)));
  }

  // ---------------------------------------------------------------- spending vs budget

  function CategoriesListed(rows: seq<SpendRow>): (cs: seq<string>)
    ensures |cs| == |rows| && forall i :: 0 <= i < |rows| ==> cs[i] == rows[i].category
  {
    if rows == [] then [] else CategoriesListed(rows[..|rows| - 1]) + [rows[|rows| - 1].category]
  }

  function RowsFor(exps: seq<Expense>, budgets: seq<Budget>, month: string, cats: seq<string>): (rows: seq<SpendRow>)
    ensures |rows| == |cats| && CategoriesListed(rows) == cats
    ensures forall i :: 0 <= i < |rows| ==>
              rows[i] == SpendRow(cats[i], Spent(exps, cats[i], month), LimitOrZero(budgets, month, cats[i]))
  {
    if cats == [] then []
    else
      var c := cats[|cats| - 1];
      var init := RowsFor(exps, budgets, month, cats[..|cats| - 1]);
      var rows := init + [SpendRow(c, Spent(exps, c, month), LimitOrZero(budgets, month, c))];
      assert rows[..|init|] == init;
      assert cats == cats[..|cats| - 1] + [c];
      rows
  }

  /**
   * One row per distinct category of any recorded expense, in any month; its spend in the
   * queried month (0 if none) and its limit for that month (0 if no budget). A budget whose
   * category has no expense at all gets no row.
   */
  function SpendVsBudget(exps: seq<Expense>, budgets: seq<Budget>, month: string): (rows: seq<SpendRow>)
    ensures forall i, j :: 0 <= i < j < |rows| ==> rows[i].category != rows[j].category
    ensures forall c :: c in CategoriesListed(rows) <==> exists e :: e in exps && e.category == c
    ensures forall i :: 0 <= i < |rows| ==>
              && rows[i].spent == Spent(exps, rows[i].category, month)
              && rows[i].limit == LimitOrZero(budgets, month, rows[i].category)
    ensures rows == [] <==> exps == []
  {
    var cats := Distinct(CategoriesOf(exps));
    assert exps != [] ==> exps[0].category in cats;
    RowsFor(exps, budgets, month, cats)
  }

  function SumSpent(rows: seq<SpendRow>): real {
    if rows == [] then 0.0 else SumSpent(rows[..|rows| - 1]) + rows[|rows| - 1].spent
  }

  lemma {:induction false} RowsForLast(exps: seq<Expense>, budgets: seq<Budget>, month: string, cats: seq<string>)
    requires exps != []
    requires forall i, j :: 0 <= i < j < |cats| ==> cats[i] != cats[j]
    ensures var e := exps[|exps| - 1];
            (SumSpent(RowsFor(exps, budgets, month, cats))
             == SumSpent(RowsFor(exps[..|exps| - 1], budgets, month, cats))
                + (if e.category in cats && MonthKey(e.date) == month then e.amount else 0.0))
  {
    if cats != [] {
      var init := cats[..|cats| - 1];
      RowsForLast(exps, budgets, month, init);
      assert RowsFor(exps, budgets, month, cats)[..|cats| - 1] == RowsFor(exps, budgets, month, init);
      assert RowsFor(exps[..|exps| - 1], budgets, month, cats)[..|cats| - 1] == RowsFor(exps[..|exps| - 1], budgets, month, init);
      assert exps[|exps| - 1].category == cats[|cats| - 1] ==> exps[|exps| - 1].category !in init;
    }
  }

  lemma {:induction false} RowsForEmpty(budgets: seq<Budget>, month: string, cats: seq<string>)
    ensures SumSpent(RowsFor([], budgets, month, cats)) == 0.0
  {
    if cats != [] {
      RowsForEmpty(budgets, month, cats[..|cats| - 1]);
      assert RowsFor([], budgets, month, cats)[..|cats| - 1] == RowsFor([], budgets, month, cats[..|cats| - 1]);
    }
  }

  lemma {:induction false} RowsForCovering(exps: seq<Expense>, budgets: seq<Budget>, month: string, cats: seq<string>)
    requires forall i, j :: 0 <= i < j < |cats| ==> cats[i] != cats[j]
    requires forall e :: e in exps ==> e.category in cats
    ensures SumSpent(RowsFor(exps, budgets, month, cats)) == MonthTotal(exps, month)
  {
    if exps == [] {
      RowsForEmpty(budgets, month, cats);
    } else {
      var init := exps[..|exps| - 1];
      assert forall e :: e in init ==> e in exps;
      var e := exps[|exps| - 1];
      assert e in exps;
      assert e.category in cats;
      RowsForCovering(init, budgets, month, cats);
      RowsForLast(exps, budgets, month, cats);
      assert MonthTotal(exps, month) == MonthTotal(init, month) + (if MonthKey(e.date) == month then e.amount else 0.0);
    }
  }

  /**
   * The two reports agree: the spend column of spending versus budget for a month adds up
   * to that month's line of the monthly log.
   */
  lemma SpendVsBudgetAddsUp(exps: seq<Expense>, budgets: seq<Budget>, month: string)
    ensures SumSpent(SpendVsBudget(exps, budgets, month)) == MonthTotal(exps, month)
  {
    RowsForCovering(exps, budgets, month, Distinct(CategoriesOf(exps)));
  }

  /** A store holding one Food expense and no budgets: exactly one row, Food, with limit 0. */
  lemma SingleFoodExpense(e: Expense, month: string)
    requires e.category == "Food"
    ensures SpendVsBudget([e], [], month)
         == [SpendRow("Food", if MonthKey(e.date) == month then e.amount else 0.0, 0.0)]
  {
    assert [e][..0] == [];
    assert CategoriesOf([e]) == ["Food"];
    assert Distinct(["Food"]) == ["Food"] by {
      assert ["Food"][..0] == [];
    }
    assert LimitOrZero([], month, "Food") == 0.0;
    var rows := RowsFor([e], [], month, ["Food"]);
    assert |rows| == 1 && rows[0] == SpendRow("Food", Spent([e], "Food", month), 0.0);
  }
}
