/**
 * The record store the console app works on (expense_app.py:29-33, 155-156), held in
 * memory: the expenses table and the budgets table, changed in place by the two logging
 * actions log_expense (35-96) and set_budget (99-116).
 */
module Tracker {
  import opened Wrappers
  import opened Calendar
  import opened Ledger
  import opened Alerts
  import opened Entry

  /** What log_expense ends with: a refused entry, or the new row's id and the budget check. */
  datatype LogOutcome = Rejected(error: EntryError) | Logged(id: nat, alert: Alert)

  class Store {
    var expenses: seq<Expense>
    var budgets: seq<Budget>

    /**
     * Row ids are assigned 1, 2, 3, ... (nothing is ever deleted), amounts logged through
     * the amount check are non-negative, and the UNIQUE(month, category) constraint holds.
     */
    ghost predicate Valid()
      reads this
    {
      && (forall i :: 0 <= i < |expenses| ==> expenses[i].id == i + 1)
      && NonNegativeAmounts(expenses)
      && (forall i :: 0 <= i < |budgets| ==> budgets[i].id == i + 1)
      && UniqueKeys(budgets)
    }

    /** A freshly created database: both tables empty. */
    constructor ()
      ensures Valid()
      ensures expenses == [] && budgets == []
    {
      expenses := [];
      budgets := [];
    }

    /**
     * log_expense: check the entry; if it passes, append the expense with the next id and
     * run the budget check for its category and the month of its date, which now includes
     * the expense just logged. Budgets are untouched.
     */
    method LogExpense(choice: string, description: string, amountText: string, date: Option<Date>)
      returns (outcome: LogOutcome)
      requires Valid()
      modifies this
      ensures Valid()
      ensures budgets == old(budgets)
      ensures ReadEntry(choice, description, amountText, date).Failure? ==>
                && expenses == old(expenses)
                && outcome == Rejected(ReadEntry(choice, description, amountText, date).error)
      ensures ReadEntry(choice, description, amountText, date).Success? ==>
                var entry := ReadEntry(choice, description, amountText, date).value;
                var month := MonthKey(entry.date);
                && expenses == old(expenses) + [Expense(|old(expenses)| + 1, entry.date, entry.category, entry.amount)]
                && outcome == Logged(|old(expenses)| + 1, CheckBudget(expenses, budgets, month, entry.category))
                && Spent(expenses, entry.category, month) == Spent(old(expenses), entry.category, month) + entry.amount
    {
      var read := ReadEntry(choice, description, amountText, date);
      if read.Failure? {
        return Rejected(read.error);
      }
      var entry := read.value;
      var expense := Expense(|expenses| + 1, entry.date, entry.category, entry.amount);
      SpentAfterAppend(expenses, expense, entry.category, MonthKey(entry.date));
      expenses := expenses + [expense];
      var month := MonthKey(entry.date);
      outcome := Logged(expense.id, CheckBudget(expenses, budgets, month, entry.category));
    }

    /**
     * set_budget: if a budget row exists for (month, category), overwrite its limit in
     * place; otherwise add a row with the next id. `updated` tells which branch ran.
     */
    method SetBudget(month: string, category: string, limit: real) returns (updated: bool)
      requires Valid()
      modifies this
      ensures Valid()
      ensures expenses == old(expenses)
      ensures updated <==> FindBudget(old(budgets), month, category).Some?
      ensures budgets == Upsert(old(budgets), month, category, limit)
      ensures !updated ==> budgets == old(budgets) + [Budget(|old(budgets)| + 1, month, category, limit)]
    {
      var found := FindBudget(budgets, month, category);
      if found.Some? {
        var i := found.value;
        budgets := budgets[i := budgets[i].(limit := limit)];
        updated := true;
      } else {
        budgets := budgets + [Budget(|budgets| + 1, month, category, limit)];
        updated := false;
      }
    }
  }

  /**
   * Setting a budget twice for the same key leaves one row for it, holding the later limit,
   * and the same rows as setting it once.
   */
  lemma UpsertTwice(rows: seq<Budget>, month: string, category: string, first: real, second: real)
    requires UniqueKeys(rows)
    ensures var twice := Upsert(Upsert(rows, month, category, first), month, category, second);
            && KeyCount(twice, month, category) == 1
            && LimitFor(twice, month, category) == Some(second)
            && twice == Upsert(rows, month, category, second)
  {
    var once := Upsert(rows, month, category, first);
    match FindBudget(rows, month, category)
    case Some(i) =>
      assert once == rows[i := rows[i].(limit := first)];
      assert FindBudget(once, month, category) == Some(i);
      assert once[i := once[i].(limit := second)] == rows[i := rows[i].(limit := second)];
    case None =>
      var row := Budget(|rows| + 1, month, category, first);
      assert once == rows + [row];
      assert FindBudget(once, month, category) == Some(|rows|);
      assert once[|rows| := row.(limit := second)] == rows + [row.(limit := second)];
  }
}
