/** The filter dashboard: a conjunction of optional filters over the
    ledger, the summary of what passes them, the value lists offered in
    the drop-downs, resetting the filters and the CSV export of the
    filtered records. Every filter is a text; the empty text means "not
    set". */
module FilterView {
  import opened Common
  import opened Text
  import opened Ledger
  import opened Dashboard

  // ---------------------------------------------------------------------------
  // Filter settings

  datatype Filters = Filters(
    account: string,
    category: string,
    subCategory: string,
    name: string,
    amount: string,
    month: string,
    year: string,
    startDate: string,
    endDate: string)

  /** The state `resetFilters` leaves behind. */
  const NO_FILTERS: Filters := Filters("", "", "", "", "", "", "", "", "")

  /** `hasActiveFilters`: some filter text is non-empty. */
  predicate HasActiveFilters(f: Filters)
  {
    f.account != "" || f.category != "" || f.subCategory != "" || f.name != ""
    || f.amount != "" || f.month != "" || f.year != "" || f.startDate != "" || f.endDate != ""
  }

  /** `resetFilters`: every filter back to the empty text. */
  function ResetFilters(f: Filters): (r: Filters)
    ensures !HasActiveFilters(r)
    ensures r == NO_FILTERS
  {
    NO_FILTERS
  }

  /** A text filter passes a field when it is unset or equal to it. */
  predicate TextOk(selected: string, value: string)
  {
    selected == "" || value == selected
  }

  /** A numeric filter passes when it is unset or reads as the number;
      text that is not a number (`NaN`) passes nothing. */
  predicate NumberOk(selected: string, value: int)
  {
    selected == "" || ParseNumber(selected) == Some(value)
  }

  /** The start bound excludes only dates strictly before it; a bound that
      is not a date (an invalid `Date`) excludes nothing. */
  predicate AfterStart(selected: string, d: Date)
  {
    selected == "" || ParseIso(selected).None? || DateKey(ParseIso(selected).value) <= DateKey(d)
  }

  /** The end bound excludes only dates strictly after it. */
  predicate BeforeEnd(selected: string, d: Date)
  {
    selected == "" || ParseIso(selected).None? || DateKey(d) <= DateKey(ParseIso(selected).value)
  }

  /** The predicate of `filteredTransactions`, check by check. */
  predicate Matches(f: Filters, t: Transaction)
  {
    TextOk(f.account, t.account)
    && TextOk(f.category, CategoryName(t.category))
    && TextOk(f.subCategory, t.subCategory)
    && TextOk(f.name, t.name)
    && NumberOk(f.amount, t.amount)
    && NumberOk(f.month, t.date.month)
    && NumberOk(f.year, t.date.year)
    && AfterStart(f.startDate, t.date)
    && BeforeEnd(f.endDate, t.date)
  }

  function Keeps(f: Filters): Transaction -> bool
  {
    (t: Transaction) => Matches(f, t)
  }

  function FilteredTransactions(txns: seq<Transaction>, f: Filters): seq<Transaction>
  {
    Filter(txns, Keeps(f))
  }

  // ---------------------------------------------------------------------------
  // What the filter keeps

  /** A record is kept exactly when it passes every filter that is set. */
  lemma KeptIff(txns: seq<Transaction>, f: Filters, t: Transaction)
    ensures t in FilteredTransactions(txns, f) <==> t in txns && Matches(f, t)
  {
    var r := FilteredTransactions(txns, f);
    FilterMembers(txns, Keeps(f));
    if t in r {
      var i :| 0 <= i < |r| && r[i] == t;
      assert Keeps(f)(r[i]);
    }
    if t in txns && Matches(f, t) {
      var i :| 0 <= i < |txns| && txns[i] == t;
      assert Keeps(f)(txns[i]);
    }
  }

  /** With no filter set, every record is kept. */
  lemma NoFiltersKeepAll(txns: seq<Transaction>, f: Filters)
    requires !HasActiveFilters(f)
    ensures FilteredTransactions(txns, f) == txns
  {
    forall t | t in txns
      ensures Keeps(f)(t)
    {
      assert Matches(f, t);
    }
    FilterAll(txns, Keeps(f));
  }

  /** The kept records are a subsequence of the input, in input order. */
  lemma FilteredIsSubsequence(txns: seq<Transaction>, f: Filters)
    ensures IsSubsequence(FilteredTransactions(txns, f), txns)
  {
    FilterIsSubsequence(txns, Keeps(f));
  }

  /** Filtering by one setting and then another is filtering by both at once. */
  lemma FilterTwice(txns: seq<Transaction>, f: Filters, g: Filters)
    ensures FilteredTransactions(FilteredTransactions(txns, f), g) == Filter(txns, Both(Keeps(f), Keeps(g)))
  {
    FilterFilter(txns, Keeps(f), Keeps(g));
  }

  /** Each filter on its own: equality for the texts and the amount, the
      1-based month, the full year, and an inclusive date range. */
  lemma SingleFilters(t: Transaction, s: string, n: int, lo: Date, hi: Date)
    requires s != ""
    ensures Matches(NO_FILTERS.(account := s), t) <==> t.account == s
    ensures Matches(NO_FILTERS.(category := s), t) <==> CategoryName(t.category) == s
    ensures Matches(NO_FILTERS.(amount := IntToString(n)), t) <==> t.amount == n
    ensures Matches(NO_FILTERS.(month := IntToString(n)), t) <==> t.date.month == n
    ensures Matches(NO_FILTERS.(year := IntToString(n)), t) <==> t.date.year == n
    ensures Matches(NO_FILTERS.(startDate := IsoText(lo)), t) <==> DateLe(lo, t.date)
    ensures Matches(NO_FILTERS.(endDate := IsoText(hi)), t) <==> DateLe(t.date, hi)
  {
    NumberRoundTrip(n);
    IsoRoundTrip(lo);
    IsoRoundTrip(hi);
    DateKeyOrdersDates(lo, t.date);
    DateKeyOrdersDates(t.date, hi);
  }

  // ---------------------------------------------------------------------------
  // The summary of the filtered records

  datatype Summary = Summary(total: int, income: int, expenses: int, transfers: int, count: nat)

  function IsTransfer(t: Transaction): bool
  {
    t.category == Transfer
  }

  /** `summary`: each category's amounts filtered out and summed; the total
      is income less expenses less transfers. */
  function SummaryOf(filtered: seq<Transaction>): (s: Summary)
    ensures s.income == TotalIncome(filtered)
    ensures s.expenses == TotalExpense(filtered)
    ensures s.transfers == TotalTransfers(filtered)
    ensures s.total == TotalIncome(filtered) - TotalExpense(filtered) - TotalTransfers(filtered)
    ensures s.count == |filtered|
  {
    FilteredTotal(filtered, IsIncome, IncomeAmount);
    FilteredTotal(filtered, IsExpense, ExpenseAmount);
    FilteredTotal(filtered, IsTransfer, TransferAmount);
    var income := SumOf(Filter(filtered, IsIncome), Amount);
    var expenses := SumOf(Filter(filtered, IsExpense), Amount);
    var transfers := SumOf(Filter(filtered, IsTransfer), Amount);
    Summary(income - expenses - transfers, income, expenses, transfers, |filtered|)
  }

  // ---------------------------------------------------------------------------
  // Drop-down value lists

  /** `Array.from(new Set(values)).sort()`: each value once, ascending. */
  function UniqueSorted(values: seq<string>): (r: seq<string>)
    ensures StrictlyIncreasing(r)
    ensures forall x :: x in r <==> x in values
  {
    var d := Distinct(values);
    var r := SortStrings(d);
    SameMembers(d, r);
    r
  }

  function AccountOf(t: Transaction): string
  {
    t.account
  }

  function CategoryOf(t: Transaction): string
  {
    CategoryName(t.category)
  }

  function NameOf(t: Transaction): string
  {
    t.name
  }

  function YearOf(t: Transaction): int
  {
    t.date.year
  }

  function UniqueAccounts(txns: seq<Transaction>): (r: seq<string>)
    ensures StrictlyIncreasing(r)
    ensures forall x :: x in r <==> (exists i :: 0 <= i < |txns| && txns[i].account == x)
  {
    var values := MapSeq(txns, AccountOf);
    assert forall i :: 0 <= i < |txns| ==> values[i] == txns[i].account;
    UniqueSorted(values)
  }

  function UniqueCategories(txns: seq<Transaction>): (r: seq<string>)
    ensures StrictlyIncreasing(r)
    ensures forall x :: x in r <==> (exists i :: 0 <= i < |txns| && CategoryName(txns[i].category) == x)
  {
    var values := MapSeq(txns, CategoryOf);
    assert forall i :: 0 <= i < |txns| ==> values[i] == CategoryName(txns[i].category);
    UniqueSorted(values)
  }

  function UniqueNames(txns: seq<Transaction>): (r: seq<string>)
    ensures StrictlyIncreasing(r)
    ensures forall x :: x in r <==> (exists i :: 0 <= i < |txns| && txns[i].name == x)
  {
    var values := MapSeq(txns, NameOf);
    assert forall i :: 0 <= i < |txns| ==> values[i] == txns[i].name;
    UniqueSorted(values)
  }

  /** The records the sub-category list draws on: all of them, or only
      those of the selected category. */
  predicate InPool(selectedCategory: string, t: Transaction)
  {
    selectedCategory == "" || CategoryName(t.category) == selectedCategory
  }

  function InCategory(category: string): Transaction -> bool
  {
    (t: Transaction) => CategoryName(t.category) == category
  }

  /** The sub-categories on offer: those of the selected category when one
      is selected, otherwise those of every record. */
  function UniqueSubCategories(txns: seq<Transaction>, selectedCategory: string): (r: seq<string>)
    ensures StrictlyIncreasing(r)
    ensures forall x :: x in r <==>
      (exists i :: 0 <= i < |txns| && txns[i].subCategory == x && InPool(selectedCategory, txns[i]))
  {
    var pool := if selectedCategory != "" then Filter(txns, InCategory(selectedCategory)) else txns;
    PoolMembers(txns, selectedCategory, pool);
    var values := MapSeq(pool, SubCategoryOf);
    PoolValues(txns, selectedCategory, pool, values);
    UniqueSorted(values)
  }

  lemma PoolMembers(txns: seq<Transaction>, selectedCategory: string, pool: seq<Transaction>)
    requires pool == if selectedCategory != "" then Filter(txns, InCategory(selectedCategory)) else txns
    ensures forall t :: t in pool <==> t in txns && InPool(selectedCategory, t)
  {
    if selectedCategory != "" {
      FilterMembers(txns, InCategory(selectedCategory));
      forall t | t in pool
        ensures t in txns && InPool(selectedCategory, t)
      {
        var k :| 0 <= k < |pool| && pool[k] == t;
        assert InCategory(selectedCategory)(pool[k]);
      }
      forall t | t in txns && InPool(selectedCategory, t)
        ensures t in pool
      {
        var i :| 0 <= i < |txns| && txns[i] == t;
        assert InCategory(selectedCategory)(txns[i]);
      }
    }
  }

  lemma PoolValues(txns: seq<Transaction>, selectedCategory: string, pool: seq<Transaction>, values: seq<string>)
    requires forall t :: t in pool <==> t in txns && InPool(selectedCategory, t)
    requires values == MapSeq(pool, SubCategoryOf)
    ensures forall x :: x in values <==>
      (exists i :: 0 <= i < |txns| && txns[i].subCategory == x && InPool(selectedCategory, txns[i]))
  {
    forall x | x in values
      ensures exists i :: 0 <= i < |txns| && txns[i].subCategory == x && InPool(selectedCategory, txns[i])
    {
      var k :| 0 <= k < |values| && values[k] == x;
      assert pool[k] in pool;
      var i :| 0 <= i < |txns| && txns[i] == pool[k];
    }
    forall x | exists i :: 0 <= i < |txns| && txns[i].subCategory == x && InPool(selectedCategory, txns[i])
      ensures x in values
    {
      var i :| 0 <= i < |txns| && txns[i].subCategory == x && InPool(selectedCategory, txns[i]);
      assert txns[i] in pool;
      var k :| 0 <= k < |pool| && pool[k] == txns[i];
      assert values[k] == x;
    }
  }

  function Descending(y: int): int
  {
    -y
  }

  /** `uniqueYears`: each year once, newest first. */
  function UniqueYears(txns: seq<Transaction>): (r: seq<int>)
    ensures forall i, j :: 0 <= i < j < |r| ==> r[i] > r[j]
    ensures forall y :: y in r <==> (exists i :: 0 <= i < |txns| && txns[i].date.year == y)
  {
    var values := MapSeq(txns, YearOf);
    assert forall i :: 0 <= i < |txns| ==> values[i] == txns[i].date.year;
    var d := Distinct(values);
    var r := SortBy(d, Descending);
    SortByDistinctKeys(d, Descending);
    SameMembers(d, r);
    assert forall i, j :: 0 <= i < j < |r| ==> Descending(r[i]) < Descending(r[j]);
    r
  }

  // ---------------------------------------------------------------------------
  // CSV export

  const CSV_HEADERS: seq<string> := ["Date", "Name", "Account", "Category", "SubCategory", "Amount", "Notes", "Description"]

  /** The eight cells of one exported record, in header order. */
  function Cells(t: Transaction): (r: seq<string>)
    ensures |r| == |CSV_HEADERS|
  {
    [IsoText(t.date), t.name, t.account, CategoryName(t.category), t.subCategory,
     IntToString(t.amount), t.notes, t.description]
  }

  /** A cell wrapped in double quotes. */
  function Quote(cell: string): (r: string)
    ensures |r| == |cell| + 2 && r[0] == '"' && r[|r| - 1] == '"' && r[1..|r| - 1] == cell
  {
    "\"" + cell + "\""
  }

  function CsvLine(t: Transaction): string
  {
    Join(MapSeq(Cells(t), Quote), ",")
  }

  /** `headers.join(',')`. */
  function HeaderLine(): string
  {
    Join(CSV_HEADERS, ",")
  }

  /** The header line, then one line per record. */
  function CsvLines(filtered: seq<Transaction>): (r: seq<string>)
    ensures |r| == |filtered| + 1
    ensures r[0] == HeaderLine()
    ensures r[1..] == MapSeq(filtered, CsvLine)
  {
    [HeaderLine()] + MapSeq(filtered, CsvLine)
  }

  /** `csvContent`: the lines joined by newlines. */
  function ExportCsv(filtered: seq<Transaction>): string
  {
    Join(CsvLines(filtered), "\n")
  }

  /** No cell of the record holds the character `c`. */
  predicate FreeOf(t: Transaction, c: char)
  {
    forall k :: 0 <= k < |Cells(t)| ==> c !in Cells(t)[k]
  }

  /** No header holds a line break or a comma. */
  lemma HeadersPlain()
    ensures forall k :: 0 <= k < |CSV_HEADERS| ==> '\n' !in CSV_HEADERS[k] && ',' !in CSV_HEADERS[k]
  {
    forall k | 0 <= k < |CSV_HEADERS|
      ensures '\n' !in CSV_HEADERS[k] && ',' !in CSV_HEADERS[k]
    {
      var h := CSV_HEADERS[k];
      forall i | 0 <= i < |h|
        ensures h[i] != '\n' && h[i] != ','
      {
      }
    }
  }

  /** The header line splits at its commas into the eight column names. */
  lemma HeaderSplits()
    ensures Split(HeaderLine(), ',') == CSV_HEADERS
  {
    HeadersPlain();
    SplitJoin(CSV_HEADERS, ',');
  }

  /** A record's line splits at its commas into its eight quoted cells,
      provided no cell holds a comma. */
  lemma CsvLineSplits(t: Transaction)
    requires FreeOf(t, ',')
    ensures Split(CsvLine(t), ',') == MapSeq(Cells(t), Quote)
    ensures |Split(CsvLine(t), ',')| == |CSV_HEADERS|
  {
    var quoted := MapSeq(Cells(t), Quote);
    forall k | 0 <= k < |quoted|
      ensures ',' !in quoted[k]
    {
      assert quoted[k] == "\"" + Cells(t)[k] + "\"";
    }
    SplitJoin(quoted, ',');
  }

  /** When no cell holds a line break, the export reads back line by line:
      the header, then each record's line. */
  lemma ExportSplitsIntoLines(filtered: seq<Transaction>)
    requires forall i :: 0 <= i < |filtered| ==> FreeOf(filtered[i], '\n')
    ensures Split(ExportCsv(filtered), '\n') == CsvLines(filtered)
  {
    var lines := CsvLines(filtered);
    HeadersPlain();
    JoinFreeOf(CSV_HEADERS, ",", '\n');
    forall i | 1 <= i < |lines|
      ensures '\n' !in lines[i]
    {
      LineFreeOf(filtered[i - 1], '\n');
    }
    SplitJoin(lines, '\n');
  }

  /** Line `i + 2` of the export splits back into the quoted cells of the
      `i`-th filtered record, when no cell holds a line break or a comma. */
  lemma ExportReadsBack(filtered: seq<Transaction>, i: nat)
    requires forall k :: 0 <= k < |filtered| ==> FreeOf(filtered[k], '\n')
    requires i < |filtered| && FreeOf(filtered[i], ',')
    ensures |Split(ExportCsv(filtered), '\n')| == |filtered| + 1
    ensures Split(Split(ExportCsv(filtered), '\n')[0], ',') == CSV_HEADERS
    ensures Split(Split(ExportCsv(filtered), '\n')[i + 1], ',') == MapSeq(Cells(filtered[i]), Quote)
  {
    ExportSplitsIntoLines(filtered);
    HeaderSplits();
    var lines := CsvLines(filtered);
    assert lines[i + 1] == lines[1..][i] == CsvLine(filtered[i]);
    CsvLineSplits(filtered[i]);
  }

  /** A line built from cells free of `c` is free of `c`, for any `c` other
      than the comma and the quote. */
  lemma LineFreeOf(t: Transaction, c: char)
    requires c != ',' && c != '"'
    requires FreeOf(t, c)
    ensures c !in CsvLine(t)
  {
    var quoted := MapSeq(Cells(t), Quote);
    forall k | 0 <= k < |quoted|
      ensures c !in quoted[k]
    {
      assert quoted[k] == "\"" + Cells(t)[k] + "\"";
    }
    JoinFreeOf(quoted, ",", c);
  }
}
