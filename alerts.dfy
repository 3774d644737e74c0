/**
 * The budget check that follows logging an expense (expense_app.py:83-96): no comparison
 * without a budget, otherwise `remaining = limit - total` classified first-match.
 */
module Alerts {
  import opened Wrappers
  import opened Calendar
  import opened Ledger

  /** The fixed share of the limit below which the remainder is reported (expense_app.py:95). */
  const NearLimitShare: real := 0.1

  /**
   * The outcome of the check: no budget for the key (nothing compared), within budget
   * (no message), near the limit (the remainder is reported), or exceeded.
   */
  datatype Alert = NoBudget | WithinBudget | NearLimit(remaining: real) | Exceeded

  /** How serious an alert is: no message, a warning, an overrun. */
  function Severity(a: Alert): nat {
    match a
    case NoBudget => 0
    case WithinBudget => 0
    case NearLimit(_) => 1
    case Exceeded => 2
  }

  /**
   * `remaining < 0` is exceeded; else `remaining <= 0.1 * limit` is near-limit; else no
   * alert. Stated on the spend: exceeded above the limit, near-limit from 90% of the limit
   * up to the limit itself, within budget below 90%.
   */
  function Classify(limit: real, spent: real): (a: Alert)
    ensures a != NoBudget
    ensures a.Exceeded? <==> spent > limit
    ensures a.NearLimit? <==> (1.0 - NearLimitShare) * limit <= spent <= limit
    ensures a.WithinBudget? <==> spent < (1.0 - NearLimitShare) * limit && spent <= limit
    ensures a.NearLimit? ==> a.remaining == limit - spent && a.remaining >= 0.0
  {
    var remaining := limit - spent;
    if remaining < 0.0 then Exceeded
    else if remaining <= NearLimitShare * limit then NearLimit(remaining)
    else WithinBudget
  }

  /** More spending never gives a milder alert against the same limit. */
  lemma ClassifyMonotone(limit: real, spent1: real, spent2: real)
    requires spent1 <= spent2
    ensures Severity(Classify(limit, spent1)) <= Severity(Classify(limit, spent2))
  {
  }

  /**
   * The boundaries: with limit 100, 89.99 is within budget, 90 is near the limit, exactly
   * 100 (nothing left) is still near the limit, 100.01 is exceeded; a zero limit with
   * nothing spent is near the limit.
   */
  lemma ClassifyBoundaries()
    ensures Classify(100.0, 89.99) == WithinBudget
    ensures Classify(100.0, 90.0) == NearLimit(10.0)
    ensures Classify(100.0, 100.0) == NearLimit(0.0)
    ensures Classify(100.0, 100.01) == Exceeded
    ensures Classify(0.0, 0.0) == NearLimit(0.0)
  {
  }

  /**
   * The check for (month, category): without a budget no spend/limit comparison is made;
   * with one, the month's spend in that category is classified against its limit.
   */
  function CheckBudget(exps: seq<Expense>, rows: seq<Budget>, month: string, category: string): (a: Alert)
    ensures a == NoBudget <==> LimitFor(rows, month, category).None?
    ensures a.Exceeded? <==> LimitFor(rows, month, category).Some? && Spent(exps, category, month) > LimitFor(rows, month, category).value
    ensures a.NearLimit? <==>
              LimitFor(rows, month, category).Some? &&
              (1.0 - NearLimitShare) * LimitFor(rows, month, category).value <= Spent(exps, category, month) <= LimitFor(rows, month, category).value
    ensures a.WithinBudget? <==>
              LimitFor(rows, month, category).Some? &&
              Spent(exps, category, month) < (1.0 - NearLimitShare) * LimitFor(rows, month, category).value &&
              Spent(exps, category, month) <= LimitFor(rows, month, category).value
    ensures a.NearLimit? ==> a.remaining == LimitFor(rows, month, category).value - Spent(exps, category, month)
  {
    match LimitFor(rows, month, category)
    case None => NoBudget
    case Some(limit) => Classify(limit, Spent(exps, category, month))
  }

  /** Without a budget the result is the same whatever has been spent. */
  lemma NoBudgetIgnoresSpending(exps1: seq<Expense>, exps2: seq<Expense>, rows: seq<Budget>, month: string, category: string)
    requires LimitFor(rows, month, category).None?
    ensures CheckBudget(exps1, rows, month, category) == CheckBudget(exps2, rows, month, category) == NoBudget
  {
  }

  /**
   * The check run after logging `e` sees `e`: it compares the limit against the earlier
   * spend of that category in that month plus the new amount.
   */
  lemma CheckAfterLogging(exps: seq<Expense>, rows: seq<Budget>, e: Expense)
    requires LimitFor(rows, MonthKey(e.date), e.category).Some?
    ensures CheckBudget(exps + [e], rows, MonthKey(e.date), e.category)
         == Classify(LimitFor(rows, MonthKey(e.date), e.category).value,
                     Spent(exps, e.category, MonthKey(e.date)) + e.amount)
  {
    SpentAfterAppend(exps, e, e.category, MonthKey(e.date));
  }

  /** Logging a non-negative amount never makes the alert for its month and category milder. */
  lemma LoggingNeverEasesAlert(exps: seq<Expense>, rows: seq<Budget>, e: Expense)
    requires e.amount >= 0.0
    ensures Severity(CheckBudget(exps, rows, MonthKey(e.date), e.category))
         <= Severity(CheckBudget(exps + [e], rows, MonthKey(e.date), e.category))
  {
  }
}
