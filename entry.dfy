/**
 * The input checks of log_expense (expense_app.py:35-74): the category menu choice, taken
 * raw as read, the "Others" description and the amount text, taken as already stripped, the
 * amount's exact decimal value, and the date.
 */
module Entry {
  import opened Wrappers
  import opened Digits
  import opened Calendar

  /** The category menu, numbered from 1 (expense_app.py:37). */
  const Menu: seq<string> := ["Food", "Rent", "Bills", "Fuel", "Electronics", "Transport", "Entertainment", "Others"]

  /** The menu entry that asks for a free-text description instead (expense_app.py:51). */
  const OthersLabel: string := "Others"

  // ---------------------------------------------------------------- category choice

  /** `choice.isdigit() and 1 <= int(choice) <= len(categories)` (expense_app.py:44). */
  function IsValidChoice(choice: string): (valid: bool)
    ensures valid <==>
              && choice != []
              && (forall i :: 0 <= i < |choice| - 1 ==> choice[i] == '0')
              && IsDigit(choice[|choice| - 1]) && 1 <= DigitValue(choice[|choice| - 1]) <= |Menu|
  {
    if choice != [] && AllDigits(choice) then
      ZeroValue(choice[..|choice| - 1]);
      1 <= Value(choice) <= |Menu|
    else
      false
  }

  /** `categories[int(choice) - 1]` for an accepted choice: the line named by its last digit. */
  function SelectCategory(choice: string): (r: Option<string>)
    ensures r.Some? <==> IsValidChoice(choice)
    ensures r.Some? ==> r.value in Menu && r.value == Menu[DigitValue(choice[|choice| - 1]) - 1]
  {
    if IsValidChoice(choice) then
      ZeroValue(choice[..|choice| - 1]);
      Some(Menu[Value(choice) - 1])
    else
      None
  }

  /** Typing the number k of a menu line selects that line; 0 and 9 are refused. */
  lemma MenuNumbers(k: nat)
    requires k < 10
    ensures SelectCategory([DigitChar(k)]).Some? <==> 1 <= k <= |Menu|
    ensures 1 <= k <= |Menu| ==> SelectCategory([DigitChar(k)]) == Some(Menu[k - 1])
  {
    var choice := [DigitChar(k)];
    assert choice[..0] == [];
    assert Value(choice) == k;
    assert |Menu| == 8;
  }

  /** `int()` ignores leading zeros, so "07" selects the same line as "7". */
  lemma {:induction false} LeadingZeroIgnored(choice: string)
    requires choice != [] && AllDigits(choice)
    ensures SelectCategory("0" + choice) == SelectCategory(choice)
  {
    assert Value("0") == 0 by {
      assert "0"[..0] == [];
    }
    ValueAppend("0", choice);
  }

  /** An empty choice is refused: `"".isdigit()` is false. */
  lemma EmptyChoiceRefused()
    ensures SelectCategory("") == None
  {
  }

  // ---------------------------------------------------------------- amount text

  /** The position of the first `c` in `s`, if any. */
  function IndexOf(s: string, c: char): (r: Option<nat>)
    ensures r.Some? ==> r.value < |s| && s[r.value] == c && c !in s[..r.value]
    ensures r.None? <==> c !in s
  {
    if s == [] then None
    else if s[0] == c then Some(0)
    else
      match IndexOf(s[1..], c)
      case None => None
      case Some(i) =>
        assert s[..i + 1] == [s[0]] + s[1..][..i];
        Some(i + 1)
  }

  /** `s.replace(c, '', 1)`: `s` without its first `c`. */
  function RemoveFirst(s: string, c: char): string {
    match IndexOf(s, c)
    case None => s
    case Some(i) => s[..i] + s[i + 1..]
  }

  /**
   * `amount_str.replace('.', '', 1).isdigit()` (expense_app.py:61). It accepts exactly the
   * texts made of digits and at most one dot that hold at least one digit: "12", "12.5",
   * "12.", ".5" pass; "", ".", "1.2.3", "-3", "1e3" do not.
   */
  function IsAmountText(s: string): (ok: bool)
    ensures ok <==> DigitsAndDots(s) && AtMostOneDot(s) && HasDigit(s)
  {
    DotRemovedShape(s);
    var t := RemoveFirst(s, '.');
    t != [] && AllDigits(t)
  }

  predicate DigitsAndDots(s: string) {
    forall i :: 0 <= i < |s| ==> IsDigit(s[i]) || s[i] == '.'
  }

  predicate AtMostOneDot(s: string) {
    forall i, j :: 0 <= i < j < |s| && s[i] == '.' ==> s[j] != '.'
  }

  predicate HasDigit(s: string) {
    exists i :: 0 <= i < |s| && IsDigit(s[i])
  }

  /** Removing the first dot leaves a non-empty digit string exactly for digits with at most one dot. */
  lemma DotRemovedShape(s: string)
    ensures var t := RemoveFirst(s, '.');
            t != [] && AllDigits(t) <==> DigitsAndDots(s) && AtMostOneDot(s) && HasDigit(s)
  {
    match IndexOf(s, '.')
    case None =>
      if HasDigit(s) {
        assert s != [];
      }
      if s != [] && AllDigits(s) {
        assert IsDigit(s[0]);
      }
    case Some(d) =>
      var t := s[..d] + s[d + 1..];
      assert forall k :: 0 <= k < d ==> t[k] == s[k];
      assert forall k :: d < k < |s| ==> t[k - 1] == s[k];
      if t != [] && AllDigits(t) {
        assert IsDigit(t[0]);
        if d == 0 {
          assert IsDigit(s[1]);
        } else {
          assert IsDigit(s[0]);
        }
        forall i, j | 0 <= i < j < |s| && s[i] == '.'
          ensures s[j] != '.'
        {
          if i == d {
            assert t[j - 1] == s[j];
          }
        }
      }
      if DigitsAndDots(s) && AtMostOneDot(s) && HasDigit(s) {
        var w :| 0 <= w < |s| && IsDigit(s[w]);
        assert w != d;
        assert t != [];
        forall k | 0 <= k < |t|
          ensures IsDigit(t[k])
        {
          if k < d {
            assert s[k] in s[..d];
          } else {
            assert t[k] == s[k + 1];
          }
        }
      }
  }

  /** The number of digits after the dot. */
  function FractionDigits(s: string): nat {
    match IndexOf(s, '.')
    case None => 0
    case Some(i) => |s| - i - 1
  }

  /**
   * `float(amount_str)` on an accepted text, read as an exact decimal: the digits with the
   * dot removed, scaled down by ten per digit after the dot ("12.50" is 1250 / 100).
   */
  function ParseAmount(s: string): (r: real)
    requires IsAmountText(s)
    ensures r >= 0.0
    ensures ShiftLeft(r, FractionDigits(s)) == Value(RemoveFirst(s, '.')) as real
  {
    match IndexOf(s, '.')
    case None =>
      assert RemoveFirst(s, '.') == s;
      Value(s) as real
    case Some(i) =>
      var whole, fraction := s[..i], s[i + 1..];
      assert RemoveFirst(s, '.') == whole + fraction;
      DigitsOfParts(whole, fraction);
      DecimalText(whole, fraction)
  }

  /** The value of the text `whole.fraction`: `whole` and `fraction` written together, scaled down by the fraction's length. */
  function DecimalText(whole: string, fraction: string): (r: real)
    requires AllDigits(whole) && AllDigits(fraction)
    ensures AllDigits(whole + fraction)
    ensures r >= 0.0
    ensures ShiftLeft(r, |fraction|) == Value(whole + fraction) as real
  {
    ShiftedDecimalText(whole, fraction);
    DecimalAtLeastWhole(Value(whole), Value(fraction), Pow10(|fraction|));
    Decimal(Value(whole), Value(fraction), Pow10(|fraction|))
  }

  lemma DecimalAtLeastWhole(whole: nat, fraction: nat, scale: nat)
    requires scale > 0
    ensures Decimal(whole, fraction, scale) >= whole as real
  {
    assert fraction as real / scale as real >= 0.0;
  }

  lemma DigitsOfParts(a: string, b: string)
    requires AllDigits(a + b)
    ensures AllDigits(a) && AllDigits(b)
  {
    assert forall k :: 0 <= k < |a| ==> a[k] == (a + b)[k];
    assert forall k :: 0 <= k < |b| ==> b[k] == (a + b)[|a| + k];
  }

  /** The value of the decimal text `whole.fraction`, given as the numbers both parts spell. */
  function Decimal(whole: nat, fraction: nat, scale: nat): real
    requires scale > 0
  {
    whole as real + fraction as real / scale as real
  }

  /** `r` with the decimal point moved `places` digits to the right. */
  function ShiftLeft(r: real, places: nat): real {
    r * Pow10(places) as real
  }

  lemma ShiftDecimal(whole: nat, fraction: nat, places: nat, digits: nat)
    requires digits == whole * Pow10(places) + fraction
    ensures ShiftLeft(Decimal(whole, fraction, Pow10(places)), places) == digits as real
  {
  }

  /** Moving the point of `whole.fraction` past the fraction gives `whole` and `fraction` written together. */
  lemma ShiftedDecimalText(whole: string, fraction: string)
    requires AllDigits(whole) && AllDigits(fraction)
    ensures AllDigits(whole + fraction)
    ensures ShiftLeft(Decimal(Value(whole), Value(fraction), Pow10(|fraction|)), |fraction|) == Value(whole + fraction) as real
  {
    ValueAppend(whole, fraction);
    ShiftDecimal(Value(whole), Value(fraction), |fraction|, Value(whole + fraction));
  }

  /** A text without a dot reads as the whole number its digits spell. */
  lemma WholeAmount(s: string)
    requires s != [] && AllDigits(s)
    ensures IsAmountText(s) && ParseAmount(s) == Value(s) as real
  {
  }

  // ---------------------------------------------------------------- the whole entry

  /** Why log_expense stops without logging, in the order it checks. */
  datatype EntryError = InvalidChoice | EmptyDescription | InvalidAmount | InvalidDate

  /** A checked entry, ready to be stored. */
  datatype NewExpense = NewExpense(date: Date, category: string, amount: real)

  /**
   * The checks of log_expense in order: the menu choice (44), the description when
   * "Others" was chosen (51-55), the amount text (61), the date (69-74; `None` stands for a
   * date text that does not parse). The category is the menu label, or the description
   * for "Others".
   */
  function ReadEntry(choice: string, description: string, amountText: string, date: Option<Date>): (r: Result<NewExpense, EntryError>)
    ensures r == Failure(InvalidChoice) <==> SelectCategory(choice).None?
    ensures r == Failure(EmptyDescription) <==> SelectCategory(choice) == Some(OthersLabel) && description == ""
    ensures r == Failure(InvalidAmount) <==>
              && SelectCategory(choice).Some?
              && (SelectCategory(choice) == Some(OthersLabel) ==> description != "")
              && !IsAmountText(amountText)
    ensures r == Failure(InvalidDate) <==>
              && SelectCategory(choice).Some?
              && (SelectCategory(choice) == Some(OthersLabel) ==> description != "")
              && IsAmountText(amountText)
              && date.None?
    ensures r.Success? <==>
              && SelectCategory(choice).Some?
              && (SelectCategory(choice) == Some(OthersLabel) ==> description != "")
              && IsAmountText(amountText)
              && date.Some?
    ensures r.Success? ==>
              && r.value.category != ""
              && r.value.category == (if SelectCategory(choice) == Some(OthersLabel) then description else SelectCategory(choice).value)
              && r.value.amount == ParseAmount(amountText) && r.value.amount >= 0.0
              && r.value.date == date.value
  {
    match SelectCategory(choice)
    case None => Failure(InvalidChoice)
    case Some(selected) =>
      if selected == OthersLabel && description == "" then Failure(EmptyDescription)
      else
        var category := if selected == OthersLabel then description else selected;
        if !IsAmountText(amountText) then Failure(InvalidAmount)
        else if date.None? then Failure(InvalidDate)
        else Success(NewExpense(date.value, category, ParseAmount(amountText)))
  }
}
