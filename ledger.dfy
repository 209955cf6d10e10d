/** The transaction record shared by every view: a calendar date, an
    account, one of the three categories ('Te Hyra' income, 'Shpenzime'
    expense, 'Transfere' transfer) or some other category text, a
    sub-category, a whole-number amount, the person's name and two free
    texts; plus the two tracked party names and the reserved
    sub-categories. */
module Ledger {
  import opened Common
  import opened Text

  // ---------------------------------------------------------------------------
  // Calendar dates

  type Year = y: int | 0 <= y <= 9999
  type Month = m: int | 1 <= m <= 12 witness 1
  type Day = d: int | 1 <= d <= 31 witness 1

  /** A date at day granularity, as the text `YYYY-MM-DD` names it. */
  datatype Date = Date(year: Year, month: Month, day: Day)

  /** Short English month names, the labels `toLocaleString` gives in an English locale. */
  const MONTH_NAMES: seq<string> :=
    ["Jan", "Feb", "Mar", "Apr", "May", "Jun", "Jul", "Aug", "Sep", "Oct", "Nov", "Dec"]

  /** Chronological order on dates. */
  predicate DateLe(a: Date, b: Date)
  {
    a.year < b.year
    || (a.year == b.year && (a.month < b.month || (a.month == b.month && a.day <= b.day)))
  }

  /** A number that orders dates chronologically (the role of `getTime()`). */
  function DateKey(d: Date): int
  {
    (d.year * 12 + (d.month - 1)) * 31 + (d.day - 1)
  }

  lemma DateKeyOrdersDates(a: Date, b: Date)
    ensures DateLe(a, b) <==> DateKey(a) <= DateKey(b)
    ensures DateKey(a) == DateKey(b) <==> a == b
  {
    var ma := a.year * 12 + (a.month - 1);
    var mb := b.year * 12 + (b.month - 1);
    assert ma < mb ==> DateKey(a) < DateKey(b);
    assert mb < ma ==> DateKey(b) < DateKey(a);
    assert ma == mb <==> (a.year == b.year && a.month == b.month);
  }

  // ---------------------------------------------------------------------------
  // The text form `YYYY-MM-DD`

  function Pow10(w: nat): nat
  {
    if w == 0 then 1 else 10 * Pow10(w - 1)
  }

  /** `n` written with exactly `w` decimal digits, zero-padded on the left. */
  function Digits(n: nat, w: nat): (r: string)
    ensures |r| == w
    ensures forall i :: 0 <= i < w ==> IsDigit(r[i])
  {
    if w == 0 then [] else Digits(n / 10, w - 1) + [DigitChar(n % 10)]
  }

  lemma {:induction false} DigitsValueOfDigits(n: nat, w: nat)
    requires n < Pow10(w)
    ensures DigitsValue(Digits(n, w)) == n
  {
    if w > 0 {
      DigitsValueOfDigits(n / 10, w - 1);
      var r := Digits(n, w);
      assert r[..w - 1] == Digits(n / 10, w - 1);
    }
  }

  /** The ISO text of a date: `YYYY-MM-DD`. */
  function IsoText(d: Date): (s: string)
    ensures |s| == 10 && s[4] == '-' && s[7] == '-'
  {
    Digits(d.year, 4) + "-" + Digits(d.month, 2) + "-" + Digits(d.day, 2)
  }

  /** `^\d{4}-\d{2}-\d{2}$`. */
  predicate IsIsoShape(s: string)
  {
    |s| == 10 && s[4] == '-' && s[7] == '-'
    && (forall i :: 0 <= i < 10 && i != 4 && i != 7 ==> IsDigit(s[i]))
  }

  /** Reads a `YYYY-MM-DD` text whose month is 1..12 and whose day is 1..31. */
  function ParseIso(s: string): Option<Date>
  {
    if !IsIsoShape(s) then None
    else
      assert forall i :: 0 <= i < 4 ==> s[..4][i] == s[i];
      assert forall i :: 0 <= i < 2 ==> s[5..7][i] == s[5 + i] && s[8..][i] == s[8 + i];
      var y := DigitsValue(s[..4]);
      var m := DigitsValue(s[5..7]);
      var d := DigitsValue(s[8..]);
      if y <= 9999 && 1 <= m <= 12 && 1 <= d <= 31 then Some(Date(y, m, d)) else None
  }

  /** Reading back the ISO text of a date gives the date. */
  lemma IsoRoundTrip(d: Date)
    ensures ParseIso(IsoText(d)) == Some(d)
  {
    var s := IsoText(d);
    assert s[..4] == Digits(d.year, 4);
    assert s[5..7] == Digits(d.month, 2);
    assert s[8..] == Digits(d.day, 2);
    DigitsValueOfDigits(d.year, 4);
    DigitsValueOfDigits(d.month, 2);
    DigitsValueOfDigits(d.day, 2);
  }

  /** A digit string is the zero-padded rendering of its own value. */
  lemma {:induction false} DigitsOfValue(s: string)
    requires forall i :: 0 <= i < |s| ==> IsDigit(s[i])
    ensures DigitsValue(s) < Pow10(|s|)
    ensures Digits(DigitsValue(s), |s|) == s
    decreases |s|
  {
    if s != [] {
      var init := s[..|s| - 1];
      DigitsOfValue(init);
      var d := s[|s| - 1] as int - '0' as int;
      assert IsDigit(s[|s| - 1]);
      assert DigitsValue(s) / 10 == DigitsValue(init) && DigitsValue(s) % 10 == d;
      assert DigitChar(d) == s[|s| - 1];
      assert s == init + [s[|s| - 1]];
    }
  }

  /** A text the reader accepts is the ISO text of the date it reads. */
  lemma ParseIsoText(s: string)
    requires ParseIso(s).Some?
    ensures IsoText(ParseIso(s).value) == s
  {
    assert forall i :: 0 <= i < 4 ==> s[..4][i] == s[i];
    assert forall i :: 0 <= i < 2 ==> s[5..7][i] == s[5 + i] && s[8..][i] == s[8 + i];
    DigitsOfValue(s[..4]);
    DigitsOfValue(s[5..7]);
    DigitsOfValue(s[8..]);
    assert s == s[..4] + "-" + s[5..7] + "-" + s[8..];
  }

  // ---------------------------------------------------------------------------
  // The calendar a JavaScript `Date` keeps

  /** Gregorian leap years. */
  predicate IsLeapYear(y: int)
  {
    y % 4 == 0 && (y % 100 != 0 || y % 400 == 0)
  }

  function DaysInMonth(y: Year, m: Month): (n: int)
    ensures 28 <= n <= 31
    ensures m == 12 ==> n == 31
  {
    if m == 2 then (if IsLeapYear(y) then 29 else 28)
    else if m == 4 || m == 6 || m == 9 || m == 11 then 30
    else 31
  }

  /** The day lies inside its month. */
  predicate IsCalendarDate(d: Date)
  {
    d.day <= DaysInMonth(d.year, d.month)
  }

  /** The days of the year before the first of month `m`. */
  function DaysBeforeMonth(y: Year, m: Month): nat
  {
    if m == 1 then 0 else DaysBeforeMonth(y, m - 1) + DaysInMonth(y, m - 1)
  }

  /** The day of the year the fields name when read as a day count from
      the first of the month, as ECMAScript's MakeDay reads them: the day
      31 of a 28-day month is the third day of the next one. */
  function DayOfYear(d: Date): nat
  {
    DaysBeforeMonth(d.year, d.month) + d.day
  }

  /** The date a `Date` built from the fields holds: a day past the month's
      end carries into the next month. Every month has at least 28 days and
      December has 31, so one carry suffices and the year never changes. */
  function Rollover(d: Date): (r: Date)
    ensures IsCalendarDate(r)
    ensures r.year == d.year && DayOfYear(r) == DayOfYear(d)
    ensures IsCalendarDate(d) <==> r == d
  {
    if IsCalendarDate(d) then d
    else Date(d.year, d.month + 1, d.day - DaysInMonth(d.year, d.month))
  }

  /** Two calendar dates of one year with the same day of the year are the
      same date, so `Rollover` is the only calendar date MakeDay can mean. */
  lemma {:induction false} DayOfYearInjective(a: Date, b: Date)
    requires IsCalendarDate(a) && IsCalendarDate(b) && a.year == b.year
    requires DayOfYear(a) == DayOfYear(b)
    ensures a == b
  {
    if a.month < b.month {
      DaysBeforeGrows(a.year, a.month, b.month);
      assert false;
    } else if b.month < a.month {
      DaysBeforeGrows(a.year, b.month, a.month);
      assert false;
    }
  }

  /** A later month starts after the whole of an earlier one. */
  lemma {:induction false} DaysBeforeGrows(y: Year, m: Month, n: Month)
    requires m < n
    ensures DaysBeforeMonth(y, m) + DaysInMonth(y, m) <= DaysBeforeMonth(y, n)
    decreases n - m
  {
    if m + 1 < n {
      DaysBeforeGrows(y, m + 1, n);
    }
  }

  /** The ISO text of the stored date is the text read exactly when the
      text names a day inside its month. */
  lemma StoredIsoText(s: string)
    requires ParseIso(s).Some?
    ensures IsoText(Rollover(ParseIso(s).value)) == s <==> IsCalendarDate(ParseIso(s).value)
  {
    var d := ParseIso(s).value;
    ParseIsoText(s);
    IsoRoundTrip(Rollover(d));
  }

  // ---------------------------------------------------------------------------
  // Numbers read from text

  /** The text after an optional leading minus sign. */
  function Unsigned(s: string): string
  {
    if s != [] && s[0] == '-' then s[1..] else s
  }

  /** Integer text: an optional minus sign followed by at least one decimal digit. */
  predicate IsIntegerText(s: string)
  {
    Unsigned(s) != [] && forall i :: 0 <= i < |Unsigned(s)| ==> IsDigit(Unsigned(s)[i])
  }

  /** `Number(s)` / `parseFloat(s)` on integer text; `None` stands for `NaN`. */
  function ParseNumber(s: string): (r: Option<int>)
    ensures r.Some? <==> IsIntegerText(s)
  {
    if !IsIntegerText(s) then None
    else
      var v := DigitsValue(Unsigned(s));
      if s[0] == '-' then Some(-v) else Some(v)
  }

  /** Reading back the decimal rendering of an integer gives the integer. */
  lemma NumberRoundTrip(i: int)
    ensures ParseNumber(IntToString(i)) == Some(i)
  {
    var s := IntToString(i);
    if i < 0 {
      var u := NatToString(-i);
      DigitsValueOfNat(-i);
      assert s[1..] == u;
      assert Unsigned(s) == u;
    } else {
      DigitsValueOfNat(i);
      assert Unsigned(s) == s;
    }
    assert IsIntegerText(s);
  }

  // ---------------------------------------------------------------------------
  // Categories

  const INCOME_NAME: string := "Te Hyra"
  const EXPENSE_NAME: string := "Shpenzime"
  const TRANSFER_NAME: string := "Transfere"

  predicate IsKnownCategoryName(s: string)
  {
    s == INCOME_NAME || s == EXPENSE_NAME || s == TRANSFER_NAME
  }

  /** The three known categories, and any other text the store may hold. */
  datatype Category = Income | Expense | Transfer | Other(name: string)

  predicate WellFormedCategory(c: Category)
  {
    c.Other? ==> !IsKnownCategoryName(c.name)
  }

  function CategoryName(c: Category): string
  {
    match c
    case Income => INCOME_NAME
    case Expense => EXPENSE_NAME
    case Transfer => TRANSFER_NAME
    case Other(n) => n
  }

  function ParseCategory(s: string): (c: Category)
    ensures WellFormedCategory(c)
  {
    if s == INCOME_NAME then Income
    else if s == EXPENSE_NAME then Expense
    else if s == TRANSFER_NAME then Transfer
    else Other(s)
  }

  lemma CategoryNameRoundTrip(s: string)
    ensures CategoryName(ParseCategory(s)) == s
  {
  }

  lemma ParseCategoryRoundTrip(c: Category)
    requires WellFormedCategory(c)
    ensures ParseCategory(CategoryName(c)) == c
  {
  }

  // ---------------------------------------------------------------------------
  // Parties and reserved sub-categories

  const BURIMI: string := "Burimi"
  const SKENDERI: string := "Skenderi"
  /** The sub-category marking the shared project. */
  const GINGER: string := "GINGER"
  /** The sub-category marking point-of-sale collections. */
  const POS: string := "POS"

  predicate IsTrackedName(name: string)
  {
    name == BURIMI || name == SKENDERI
  }

  // ---------------------------------------------------------------------------
  // Transactions

  datatype Transaction = Transaction(
    id: string,
    date: Date,
    account: string,
    category: Category,
    subCategory: string,
    notes: string,
    amount: int,
    name: string,
    description: string)

  function IncomeAmount(t: Transaction): int
  {
    if t.category == Income then t.amount else 0
  }

  function ExpenseAmount(t: Transaction): int
  {
    if t.category == Expense then t.amount else 0
  }

  function TransferAmount(t: Transaction): int
  {
    if t.category == Transfer then t.amount else 0
  }

  /** Total of the income transactions. */
  function TotalIncome(txns: seq<Transaction>): int
  {
    SumOf(txns, IncomeAmount)
  }

  /** Total of the expense transactions. */
  function TotalExpense(txns: seq<Transaction>): int
  {
    SumOf(txns, ExpenseAmount)
  }

  function TotalTransfers(txns: seq<Transaction>): int
  {
    SumOf(txns, TransferAmount)
  }

  /** Income minus expense of the two tracked parties; transfers contribute nothing. */
  function TrackedNet(t: Transaction): int
  {
    if IsTrackedName(t.name) then
      (if t.category == Income then t.amount else if t.category == Expense then -t.amount else 0)
    else 0
  }
}
