/**
 * Calendar dates and the "YYYY-MM" month key that buckets expenses and keys budgets
 * (expense_app.py:23, 83, 89, 144).
 */
module Calendar {
  import opened Wrappers
  import opened Digits

  datatype YearMonthDay = YearMonthDay(year: int, month: int, day: int)

  predicate IsLeapYear(y: int) {
    y % 4 == 0 && (y % 100 != 0 || y % 400 == 0)
  }

  function DaysInMonth(y: int, m: int): int
    requires 1 <= m <= 12
  {
    if m == 2 then (if IsLeapYear(y) then 29 else 28)
    else if m == 4 || m == 6 || m == 9 || m == 11 then 30
    else 31
  }

  /** A proleptic Gregorian date in the range of Python's `datetime.date`. */
  predicate IsValidDate(d: YearMonthDay) {
    && 1 <= d.year <= 9999
    && 1 <= d.month <= 12
    && 1 <= d.day <= DaysInMonth(d.year, d.month)
  }

  type Date = d: YearMonthDay | IsValidDate(d) witness YearMonthDay(1970, 1, 1)

  /** `strftime("%Y-%m", date)`: four-digit year, a dash, two-digit month. */
  function MonthKey(d: Date): (key: string)
    ensures |key| == 7 && key[4] == '-'
    ensures AllDigits(key[..4]) && AllDigits(key[5..])
  {
    assert Pow10(4) == 10000 && Pow10(2) == 100;
    var key := Padded(d.year, 4) + "-" + Padded(d.month, 2);
    assert key[..4] == Padded(d.year, 4) && key[5..] == Padded(d.month, 2);
    key
  }

  /** Reads a "YYYY-MM" key back into its (year, month) pair. */
  function ParseMonthKey(key: string): Option<(int, int)> {
    if |key| == 7 && key[4] == '-' && AllDigits(key[..4]) && AllDigits(key[5..])
    then Some((Value(key[..4]), Value(key[5..])))
    else None
  }

  /** The month key of a date records exactly its year and month. */
  lemma MonthKeyRoundTrip(d: Date)
    ensures ParseMonthKey(MonthKey(d)) == Some((d.year, d.month))
  {
    var key := MonthKey(d);
    assert Pow10(4) == 10000 && Pow10(2) == 100;
    assert key[..4] == Padded(d.year, 4) && key[5..] == Padded(d.month, 2);
    PaddedValue(d.year, 4);
    PaddedValue(d.month, 2);
  }

  /** Two dates share a month key if and only if they lie in the same calendar month. */
  lemma SameMonthKey(d1: Date, d2: Date)
    ensures MonthKey(d1) == MonthKey(d2) <==> d1.year == d2.year && d1.month == d2.month
  {
    MonthKeyRoundTrip(d1);
    MonthKeyRoundTrip(d2);
  }
}
