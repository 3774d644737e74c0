# Expense tracker budget engine, modelled in Dafny

This project models the budget evaluation engine of a small console expense tracker
(`expense_app.py`). The tracker keeps two tables:
- `expenses`: date, category, amount;
- `budgets`: a limit per month key ("YYYY-MM") and category, unique per pair.

Around them it offers four actions:

- **log an expense**: choose a category from a numbered menu, or "Others" with a free-text
  description. Enter an amount text, which must be digits with at most one dot, and a date.
  The expense is stored. If a budget exists for its category and month, the month's spend
  in that category (the new expense included) is compared with the limit. It is reported as
  exceeded when the remainder is negative, and as near the limit when the remainder is at
  most 10% of the limit.
- **set a budget**: overwrite the limit of the existing (month, category) row, or add a new row.
- **monthly spending log**: the sum of all amounts per month key.
- **spending vs budget** for one month: one row per distinct expense category, with its spend
  in that month and its limit, or 0 when there is no budget.

The store becomes a class `Tracker.Store` with two fields. `expenses` is a `seq<Expense>`.
`budgets` is a `seq<Budget>`, whose invariant is the unique (month, category) constraint.
The two actions that write are methods that change the store in place. The queries and
the classification are functions over the tables' contents, with lemmas about them.
Amounts are exact `real`s. Dates are valid Gregorian (year, month, day) triples. A month
key is the zero-padded text "YYYY-MM" that `strftime("%Y-%m", date)` produces.

Modules, one file each:
- `Wrappers`: `Option` and `Result`.
- `Digits`: reading and writing decimal digit strings.
- `Calendar`: dates and month keys.
- `Ledger`: the rows, the spend sums and the budget lookup and upsert.
- `Alerts`: the classification and the budget check.
- `Reports`: the two reports.
- `Entry`: the input checks of log_expense.
- `Tracker`: the store.

Behaviour worth noting:
- The budget check exists only as the step after logging an expense. It yields no result
  when no budget exists, and prints nothing when the spend is within budget. The model
  returns `NoBudget` and `WithinBudget` for those two cases.
- The month entered for a budget, and the month asked for in spending vs budget, are never
  checked against "YYYY-MM". They are kept as free text. A malformed key simply matches no
  expense.
- A budget limit is any number `float()` accepts, negative included. A negative limit makes
  every check report "exceeded".

## Model

| member | source | states |
|---|---|---|
| `Digits.ZeroValue` | expense_app.py:44 | `int()` of a digit string is 0 exactly when every digit is '0' |
| `Digits.PaddedValue` | expense_app.py:83 | the zero-padded digits written for a year or month read back as that number |
| `Calendar.MonthKey` | expense_app.py:83 | a month key is seven characters: four digits, a dash, two digits |
| `Calendar.MonthKeyRoundTrip` | expense_app.py:83 | parsing a date's month key gives back exactly its year and month |
| `Calendar.SameMonthKey` | expense_app.py:87-90 | two dates share a month key if and only if they are in the same year and month, so the month filter selects exactly one calendar month |
| `Ledger.Matching` | expense_app.py:87-90 | the rows the spend query selects are exactly the stored expenses with that category whose date has that month key, each as often as it is stored, and never more rows than are stored |
| `Ledger.SpentIsTotalOfMatching` | expense_app.py:87-90 | the spend for (category, month) is the total of exactly the matching expenses |
| `Ledger.SpentWithoutMatches` | expense_app.py:87-90 | with no matching expense the spend is 0 (the `or 0` of an empty SUM), whatever else is stored |
| `Ledger.Spent` | expense_app.py:87-90 | while every stored amount is non-negative (which the amount check guarantees), the spend of a category in a month lies between 0 and that month's total over all categories |
| `Ledger.MonthTotal` | expense_app.py:122 | while every stored amount is non-negative, a month's total lies between 0 and the sum of all amounts |
| `Ledger.SpentAfterAppend` | expense_app.py:77-90 | appending an expense adds its amount to the spend of exactly the (category, month) it matches and leaves every other spend unchanged |
| `Ledger.JuneExample` | expense_app.py:87-90 | Food 10 and 20 and Rent 5 dated in June 2024 give a June Food spend of 30 and a June Rent spend of 5 |
| `Ledger.Distinct` | expense_app.py:121-123 | the distinct values of a list (GROUP BY / DISTINCT): the same members, none repeated |
| `Ledger.MonthsOf` | expense_app.py:121 | the month keys present are exactly those of some stored expense |
| `Ledger.CategoriesOf` | expense_app.py:135 | the categories present are exactly those of some stored expense |
| `Ledger.FindBudget` | expense_app.py:84 | `.first()` of the budget query: the first row with that (month, category), or none exactly when no row has it |
| `Ledger.LimitFor` | expense_app.py:84 | no limit exactly when no row has the (month, category) key; under the unique constraint, the limit of the one row that has the key |
| `Ledger.LimitOrZero` | expense_app.py:147-148 | 0 when no row has the key; under the unique constraint, the limit of the row that has it |
| `Ledger.KeyCountUnique` | expense_app.py:27 | under the unique constraint, a key is on exactly one row when a budget is found for it and on none otherwise |
| `Ledger.Upsert` | expense_app.py:109-116 | setting a budget keeps keys unique; afterwards exactly one row has the key and its limit is the new one; every other key's limit is unchanged; the row count grows by one only when the key was absent; existing rows keep their ids and keys |
| `Ledger.UpsertKeepsOtherLimits` | expense_app.py:110-114 | changing or adding rows of one key changes no other key's limit |
| `Alerts.Classify` | expense_app.py:92-96 | never NoBudget; exceeded if and only if spend > limit; near the limit if and only if 90% of the limit <= spend <= limit, reporting remaining = limit - spend >= 0; within budget if and only if spend < 90% of the limit and spend <= limit |
| `Alerts.ClassifyMonotone` | expense_app.py:92-96 | against one limit, more spending never gives a milder alert |
| `Alerts.ClassifyBoundaries` | expense_app.py:93-95 | with limit 100: 89.99 is within budget, 90 near the limit, 100 near the limit with 0 left, 100.01 exceeded; limit 0 and spend 0 is near the limit |
| `Alerts.CheckBudget` | expense_app.py:84-96 | NoBudget exactly when no budget exists for the key. With a budget: exceeded exactly when the month's spend in the category is above the limit; near the limit exactly when 90% of the limit <= spend <= limit, reporting limit minus spend; within budget exactly when spend is below 90% of the limit and not above it |
| `Alerts.NoBudgetIgnoresSpending` | expense_app.py:84-86 | without a budget the result is NoBudget whatever has been spent |
| `Alerts.CheckAfterLogging` | expense_app.py:77-92 | the check after logging compares the limit with the earlier spend of that category and month plus the new amount |
| `Alerts.LoggingNeverEasesAlert` | expense_app.py:77-96 | logging a non-negative amount never makes the alert for its category and month milder |
| `Reports.MonthlyTotals` | expense_app.py:120-127 | one row per distinct month key present among the expenses and no other; each row's total is the sum of that month's amounts; no rows exactly when the store is empty |
| `Reports.MonthlyTotalsAddUp` | expense_app.py:120-123 | the monthly totals add up to the sum of all amounts, so each amount is counted once |
| `Reports.SpendVsBudget` | expense_app.py:135-148 | one row per distinct category of any expense, in any month, and no other, so a budget whose category has no expense gets no row; each row holds the category's spend in the month and its limit, or 0 without a budget; no rows exactly when no expense is recorded |
| `Reports.SpendVsBudgetAddsUp` | expense_app.py:141-145 | the spend column of spending vs budget adds up to that month's monthly total |
| `Reports.SingleFoodExpense` | expense_app.py:135-148 | a store holding one Food expense and no budget yields exactly one row: Food, its spend in the month, limit 0 |
| `Entry.IsValidChoice` | expense_app.py:44 | a choice is accepted if and only if it is non-empty, every character before the last is '0', and the last is a digit from 1 to the number of menu lines |
| `Entry.SelectCategory` | expense_app.py:44-48 | a category is selected exactly for an accepted choice; it is a menu label, the one on the line named by the choice's last digit |
| `Entry.MenuNumbers` | expense_app.py:37-48 | typing digit k selects menu line k for 1 <= k <= 8; 0 and 9 are refused |
| `Entry.LeadingZeroIgnored` | expense_app.py:44-48 | a leading zero does not change the selected line ("07" is "7") |
| `Entry.EmptyChoiceRefused` | expense_app.py:44 | an empty choice is refused |
| `Entry.IsAmountText` | expense_app.py:61 | an amount text passes if and only if it has only digits and dots, at most one dot, and at least one digit |
| `Entry.ParseAmount` | expense_app.py:64 | an accepted amount is non-negative, and moving its point right by the number of fraction digits gives the digits read without the dot |
| `Entry.WholeAmount` | expense_app.py:61-64 | a dot-free digit text is accepted and reads as the whole number it spells |
| `Entry.ReadEntry` | expense_app.py:42-74 | the checks run in order: choice, then the "Others" description, then amount, then date. Each refusal happens exactly when every earlier check passed and its own failed. An entry is accepted exactly when all pass. Its category is the menu label, or the non-empty description for "Others", and its amount is the parsed non-negative amount |
| `Tracker.Store.constructor` | expense_app.py:29-33 | a new store has no expenses and no budgets and satisfies the invariant |
| `Tracker.Store.LogExpense` | expense_app.py:35-96 | a refused entry leaves the store unchanged. An accepted one is appended with the next id. The check then runs on the new expense's category and month and sees that month's spend grown by exactly the new amount. Budgets are untouched, and ids, non-negative amounts and unique budget keys still hold |
| `Tracker.Store.SetBudget` | expense_app.py:99-116 | `updated` tells whether a row for the key existed. The budgets become the upsert of the old ones: a row is overwritten in place, or one row with the next id is appended. Expenses are untouched and the invariant still holds |
| `Tracker.UpsertTwice` | expense_app.py:109-116 | setting the same budget twice leaves one row for the key, with the later limit, the same as setting it once with that limit |

## Left out

- The menu loop, every `input()` and `print()`, and the report formatting (the rupee sign, two decimals) are console I/O. Inputs are method parameters, and outputs are returned values.
- `str.strip()` is not modelled. The texts it is applied to are taken as already stripped: the description, amount and date of log_expense, the month, category and limit of set_budget, and the month of spending vs budget. The category choice of log_expense is never stripped (expense_app.py:42), and the model takes it raw, so a choice with surrounding spaces is refused.
- The SQLAlchemy engine, session, commit and table creation are replaced by the in-memory `Store`. A failing database, which would propagate as an exception, is not modelled.
- Date parsing with `strptime` and the "today" default are library calls. The date arrives already parsed, and `None` stands for a text that does not parse.
- `float()` in set_budget is not modelled. The limit arrives as a number, so its "not a valid number" refusal is absent, and so are NaN and infinity.
- Binary floating point (rounding of `float()`, `0.1 * limit`, SQL SUM) is not modelled. Amounts are exact decimals.
- Non-ASCII digits, which `str.isdigit()` also accepts, are not modelled. Only ASCII digits count.
- `Calendar.MonthKey`: years before 1000 are always padded to four digits. Python's own `strftime` does not do so on every platform.
- `Reports.MonthlyTotals`: rows come in order of first appearance of their month. The SQL GROUP BY promises no order, so no order is claimed beyond that choice.
- `Reports.SpendVsBudget`: rows come in order of first appearance of their category. The SQL DISTINCT promises no order. An empty result stands for the "No expenses recorded yet." message.
- Expense and budget ids are the SQLite row ids, 1, 2, 3, ..., since nothing is ever deleted.
