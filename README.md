# GingerApp2 ledger and reporting rules in Dafny

GingerApp2 is a finance tracker for two people, Burimi and Skenderi. Each
transaction is a date, account, category, sub-category, amount, name, notes
and description. The category is one of 'Te Hyra' (income), 'Shpenzime'
(expense) and 'Transfere' (transfer); the model adds a case for any other
name. This project models the reporting and ledger-rule layer of the
application and proves what each part computes:

- **Monthly matrix** (`MonthlyReport`). Transactions are bucketed into
  "Mon-YY" rows with per-party income, expense and transfer cells and a POS
  column. Each row gets the two party totals with the transfer cross-terms.
  The rows are sorted by year and month, a footer sums the columns, and the
  rows are grouped by year.
- **Dashboard aggregates** (`Dashboard`). The metric totals, the two-party
  balance sheet, the running cash-flow series with one point per date, the
  expense pie and its top five, and the monthly income/expense comparison.
- **Filter view** (`FilterView`). The conjunction of optional filters, the
  summary of the filtered set, the unique-value lists, resetting the
  filters and the CSV export.
- **Server ledger rules**. `TransactionSchema` is the payload schema as a
  predicate with its ordered issue list. `TransactionRoutes` covers the
  rest:
  - creating a record, with the mirrored leg of a transfer;
  - the listing that hides negative transfer legs;
  - the update with its field-by-field change log;
  - deleting a record;
  - the bulk import with row validation and DD/MM/YYYY normalisation;
  - the name → e-mail slug.

  The store is a class holding a sequence of records and the next id.
- **Client CSV import** (`CsvImport`). The CSV parser loop, the row →
  upload mapping that aborts on the first incomplete row, and the file
  extension check.
- **Smaller list and state logic**:
  - option lists with case-insensitive deduplication (`OptionLists`);
  - the transaction search and limit (`TransactionSearch`);
  - mapping API records to client records, and the response rule
    (`ApiMapping`);
  - audit entries, client IP, audit queries and user statistics
    (`AuditLogger`);
  - the audit endpoints and the session merge (`AuditRoutes`);
  - the entry form (`TransactionForm`);
  - the option editor's two-click removal (`OptionManager`);
  - the password screen (`PasswordManager`).

Shared modules:

- `Common`: sums, filters, counting, a stable insertion sort, distinctness
  and their lemmas.
- `Text`: ASCII case folding, trimming, split/join, integer text, and the
  UTF-16 code units that string length and the default string order use.
- `Ledger`: dates as (year, month, day) triples and their ISO text,
  integer amounts, categories and the ledger totals.
- `Grouping`: the generic "bucket by key in first-seen order" loop that
  the report, the pie and the monthly comparison share.

Modelling choices:

- Amounts are whole numbers (`int`). `parseFloat` and `Number` on text are
  modelled for integer text only.
- Dates are triples, with no time of day or time zone. A day is
  `DAY_MS` milliseconds in the audit statistics.
- Month labels come from a fixed English table.
- Ids the database or `crypto.randomUUID` would create are parameters or
  come from a counter.
- Server replies and the current time are parameters.

## Model

| member | source | states |
|---|---|---|
| Ledger.DateKeyOrdersDates | GingerApp2-main/types.ts:32 | The numeric date key orders dates exactly as the (year, month, day) comparison does, and equal keys mean equal dates |
| Ledger.IsoRoundTrip | GingerApp2-main/types.ts:32 | Reading back the YYYY-MM-DD text of a date gives that date |
| Ledger.ParseIsoText | GingerApp2-main/types.ts:32 | Any text that reads as a date is exactly that date's YYYY-MM-DD text |
| Ledger.Rollover | GingerApp2-main/server/src/routes/transactions.ts:100 | The date `new Date` stores for YYYY-MM-DD fields is the calendar date of the same year and the same day count from the year's start: a day past the month's end moves into the next month, and a date inside its month is kept unchanged |
| Ledger.DayOfYearInjective | GingerApp2-main/server/src/routes/transactions.ts:100 | Two calendar dates of one year with the same day count are the same date, so the rolled-over date is the only calendar reading of the fields |
| Ledger.StoredIsoText | GingerApp2-main/server/src/routes/transactions.ts:221 | The YYYY-MM-DD text of a stored date is the text it was read from exactly when that text names a day inside its month |
| Ledger.ParseNumber | GingerApp2-main/server/src/routes/transactions.ts:403 | A text parses to a number exactly when it is integer text |
| Ledger.NumberRoundTrip | GingerApp2-main/server/src/routes/transactions.ts:403 | The decimal text of any integer parses back to that integer |
| Ledger.ParseCategory | GingerApp2-main/types.ts:1-3 | Reading a category name always gives a well-formed category; 'Other' never carries one of the three known names |
| Ledger.CategoryNameRoundTrip | GingerApp2-main/types.ts:1-3 | The name of the category read from any text is that text |
| Ledger.ParseCategoryRoundTrip | GingerApp2-main/types.ts:1-3 | Reading the name of a well-formed category gives the category back |
| Grouping.BucketBy | GingerApp2-main/components/ComplexReport.tsx:44-76 | The map-filling loop leaves one bucket per distinct key, in first-seen order, each the accumulation of exactly the items with that key, with the index pointing at it |
| Grouping.BucketCount | GingerApp2-main/components/VisualDashboard.tsx:113-118 | There is one bucket per distinct key among the items, and the bucket keys are exactly the items' keys |
| Grouping.BucketedSum | GingerApp2-main/components/VisualDashboard.tsx:110-129 | When each bucket's value is the sum over its own items, the bucket values sum to the sum over all items |
| MonthlyReport.YearSuffix | GingerApp2-main/components/ComplexReport.tsx:18 | The year part of a row label is the year's last two digits (the single digit below year 10) |
| MonthlyReport.YearSuffixCentury | GingerApp2-main/components/ComplexReport.tsx:18 | Years 100 apart (from year 10 on) get the same year part |
| MonthlyReport.CenturyApartShareLabel | GingerApp2-main/components/ComplexReport.tsx:15-20 | The same month a century apart gets one row key, so Jan 1925 and Jan 2025 share the row "Jan-25" |
| MonthlyReport.RoutingIsCollects | GingerApp2-main/components/ComplexReport.tsx:44-76 | A transaction goes to a cell iff its name is that cell's party and its category and GINGER sub-category match the cell; other names and unknown categories go to no cell |
| MonthlyReport.AddTransactionEffect | GingerApp2-main/components/ComplexReport.tsx:44-76 | One transaction adds its amount to exactly the cells that collect it and, for sub-category POS, to the POS column; nothing else changes |
| MonthlyReport.MonthCellsAreSums | GingerApp2-main/components/ComplexReport.tsx:20-76 | Each cell of a month holds the sum of the amounts routed to it, and POS the sum of the POS amounts |
| MonthlyReport.PositionChangesCancel | GingerApp2-main/components/ComplexReport.tsx:81-94 | The two parties' position changes from one transaction add up to its income minus expense: the transfer terms cancel |
| MonthlyReport.BurimiTotalMeaning | GingerApp2-main/components/ComplexReport.tsx:81-85 | burimi_total (income + Skenderi's transfers − own transfers − expenses) is the sum of Burimi's position changes |
| MonthlyReport.SkenderiTotalMeaning | GingerApp2-main/components/ComplexReport.tsx:88-92 | skenderi_total is the mirror image: the sum of Skenderi's position changes |
| MonthlyReport.NetMeaning | GingerApp2-main/components/ComplexReport.tsx:81-94 | A month's total_net is both parties' income minus both parties' expenses for that month |
| MonthlyReport.RowOrderIsYearThenMonth | GingerApp2-main/components/ComplexReport.tsx:100-103 | The numeric row key orders rows by year, then month index |
| MonthlyReport.OpenRowIsAccumulate | GingerApp2-main/components/ComplexReport.tsx:14-76 | A row created at its first transaction, with all accumulators zero, and then updated in turn is the row of all its month's transactions |
| MonthlyReport.FinishAll | GingerApp2-main/components/ComplexReport.tsx:79-97 | The totals pass sets each row's two party totals and total_net and keeps the rows as they are otherwise |
| MonthlyReport.BuildReport | GingerApp2-main/components/ComplexReport.tsx:10-103 | The report has one row per label (month name and two-digit year) that has transactions, with distinct labels, each the month's row; the rows are ascending by (year, month) and their total_net sums to the ledger's tracked net |
| MonthlyReport.FooterCells | GingerApp2-main/components/ComplexReport.tsx:108-129 | Each footer cell is the column sum over the rows |
| MonthlyReport.FooterTotals | GingerApp2-main/components/ComplexReport.tsx:108-129 | The footer b_tot, s_tot and grand are the column sums of the two party totals and total_net |
| MonthlyReport.FooterGrand | GingerApp2-main/components/ComplexReport.tsx:108-129 | Over finished rows the footer grand equals b_tot + s_tot |
| MonthlyReport.ReportFooterGrand | GingerApp2-main/components/ComplexReport.tsx:108-129 | The footer of a report's rows has grand = b_tot + s_tot |
| MonthlyReport.PushAll | GingerApp2-main/components/ComplexReport.tsx:137-143 | Pushing rows of one year into a fresh group gives that year's group holding the rows in order |
| MonthlyReport.GroupByYear | GingerApp2-main/components/ComplexReport.tsx:136-145 | The groups are strictly descending by year, each holds exactly its year's rows in their order, and every row's year has a group |
| MonthlyReport.GroupMembership | GingerApp2-main/components/ComplexReport.tsx:136-145 | A row is in a year's group iff it has that year, so every row is in exactly one group |
| MonthlyReport.GroupKeepsMonthOrder | GingerApp2-main/components/ComplexReport.tsx:136-145 | Inside a group of sorted rows the months stay ascending |
| Dashboard.MetricsMeaning | GingerApp2-main/components/VisualDashboard.tsx:51-54 | totalIncome and totalExpense are the ledger's income and expense totals, and netBalance is their difference |
| Dashboard.TallyAllMeaning | GingerApp2-main/components/VisualDashboard.tsx:163-194 | A party's column holds the sums of its own income, expenses and transfers out, and the count of its transactions; other names add nothing |
| Dashboard.BalancesNet | GingerApp2-main/components/VisualDashboard.tsx:142-205 | With transfersIn taken from the other party's transfersOut, the two balances add up to the tracked net |
| Dashboard.IndividualBalances | GingerApp2-main/components/VisualDashboard.tsx:142-205 | Per party: the income, expense and transfer sums and the count; transfersIn equals the other party's transfersOut; balance = income − expenses − transfersOut + transfersIn; the two balances sum to income − expenses over both parties |
| Dashboard.CashFlow | GingerApp2-main/components/VisualDashboard.tsx:78-95 | The series has one point per distinct date, in ascending date order, each the running balance (income adds, expense subtracts, transfer nothing) after every transaction up to that date |
| Dashboard.CashFlowOfSorted | GingerApp2-main/components/VisualDashboard.tsx:82-83 | A series built over any date-sorted permutation of the ledger is the ledger's cash-flow series |
| Dashboard.CashWalk | GingerApp2-main/components/VisualDashboard.tsx:84-94 | The walk over date-sorted transactions leaves one point per date, in order, holding the running balance after that date |
| Dashboard.LastPointIsNet | GingerApp2-main/components/VisualDashboard.tsx:52-54 | The last cash-flow point of a non-empty ledger equals netBalance = totalIncome − totalExpense |
| Dashboard.CashDeltaTotal | GingerApp2-main/components/VisualDashboard.tsx:88-89 | The balance changes of all transactions sum to total income minus total expense |
| Dashboard.PieData | GingerApp2-main/components/VisualDashboard.tsx:39-48 | One slice per expense sub-category, valued at the sum of its expense amounts; the slices are non-increasing and sum to total expense |
| Dashboard.ExpenseSlices | GingerApp2-main/components/VisualDashboard.tsx:40-46 | The first-seen buckets of the expenses are exactly the per-sub-category slices and sum to total expense |
| Dashboard.SortedSlices | GingerApp2-main/components/VisualDashboard.tsx:47 | Sorting the slices largest first keeps them the slices of the ledger, non-increasing, with the same total |
| Dashboard.TopCategories | GingerApp2-main/components/VisualDashboard.tsx:97-107 | At most five slices, non-increasing, with distinct names, each valued at its sub-category's expense sum; when fewer than five, every expense sub-category is present; any sub-category left out means five slices were kept, each at least as large as its sum |
| Dashboard.TopAreLargest | GingerApp2-main/components/VisualDashboard.tsx:103-106 | The first five slices of a largest-first pie are at least as large as every slice cut off |
| Dashboard.SliceIsSum | GingerApp2-main/components/VisualDashboard.tsx:41-43 | A slice created at its first expense and then increased holds the sum of its expenses |
| Dashboard.BucketsAreSlices | GingerApp2-main/components/VisualDashboard.tsx:41-43 | The pie map's entries are the slices of the ledger and sum to total expense |
| Dashboard.ShortLabel | GingerApp2-main/components/VisualDashboard.tsx:116 | A monthly label is six characters ("Mon YY") |
| Dashboard.EntryIsAccumulate | GingerApp2-main/components/VisualDashboard.tsx:110-132 | A month entry created and then increased holds its month's income and expense sums |
| Dashboard.MonthlyComparison | GingerApp2-main/components/VisualDashboard.tsx:110-132 | Every entry is the sums of a month that has transactions, every such month has an entry, and there are as many entries as distinct months, so one per month; the labels are in sort order; the entries' income and expense sum to the ledger totals |
| Dashboard.RankSortedLabels | GingerApp2-main/components/VisualDashboard.tsx:131 | Entries sorted on the numeric rank of their labels are in the string order of the labels |
| Dashboard.EntryNet | GingerApp2-main/components/VisualDashboard.tsx:110-132 | Each month's net is its income minus its expense |
| FilterView.ResetFilters | GingerApp2-main/components/FilterDashboard.tsx:113-125 | After a reset every filter is empty and none is active |
| FilterView.KeptIff | GingerApp2-main/components/FilterDashboard.tsx:66-98 | A transaction is in the result iff it is in the input and satisfies every non-empty filter |
| FilterView.NoFiltersKeepAll | GingerApp2-main/components/FilterDashboard.tsx:67-98 | With no active filter the result is the input |
| FilterView.FilteredIsSubsequence | GingerApp2-main/components/FilterDashboard.tsx:67-98 | The result is a subsequence of the input, in the input's order |
| FilterView.FilterTwice | GingerApp2-main/components/FilterDashboard.tsx:67-98 | Applying two filter settings one after the other is applying their conjunction |
| FilterView.SingleFilters | GingerApp2-main/components/FilterDashboard.tsx:68-96 | Account and category compare exactly; amount is numeric equality; month is the 1-based month; year is the full year; the date range is inclusive at both ends |
| FilterView.SummaryOf | GingerApp2-main/components/FilterDashboard.tsx:102-111 | income, expenses and transfers are the per-category sums of the filtered set; total = income − expenses − transfers; count is its length |
| FilterView.UniqueSorted | GingerApp2-main/components/FilterDashboard.tsx:22-42 | The result is strictly increasing in UTF-16 code-unit order and holds exactly the given values |
| Text.StrLtIsCodeUnitOrder | GingerApp2-main/components/FilterDashboard.tsx:22-42 | The string order used for sorting is the lexicographic order of the strings' UTF-16 code units, as the default `sort()` compares them |
| Text.Utf16LengthIsUnits | GingerApp2-main/components/PasswordManager.tsx:62 | The `length` the password and schema rules compare is the number of the string's UTF-16 code units |
| Text.Utf16LengthBounds | GingerApp2-main/components/PasswordManager.tsx:62 | A string's `length` lies between its character count and twice that; it equals the character count iff no character is from U+10000 on, and twice it iff all are |
| FilterView.UniqueAccounts | GingerApp2-main/components/FilterDashboard.tsx:22-25 | Exactly the accounts in use, deduplicated and sorted |
| FilterView.UniqueCategories | GingerApp2-main/components/FilterDashboard.tsx:27-30 | Exactly the category names in use, deduplicated and sorted |
| FilterView.UniqueSubCategories | GingerApp2-main/components/FilterDashboard.tsx:32-37 | Exactly the sub-categories of the selected category (of all transactions when none is selected), deduplicated and sorted |
| FilterView.UniqueNames | GingerApp2-main/components/FilterDashboard.tsx:39-42 | Exactly the names in use, deduplicated and sorted |
| FilterView.UniqueYears | GingerApp2-main/components/FilterDashboard.tsx:45-48 | Exactly the years in use, strictly descending |
| FilterView.Cells | GingerApp2-main/components/FilterDashboard.tsx:133-142 | A data row has one cell per header column |
| FilterView.Quote | GingerApp2-main/components/FilterDashboard.tsx:146 | A quoted cell is the cell between two double quotes |
| FilterView.CsvLines | GingerApp2-main/components/FilterDashboard.tsx:131-147 | The export is the header line followed by one line per filtered transaction, in order |
| FilterView.HeaderSplits | GingerApp2-main/components/FilterDashboard.tsx:131-147 | The header line splits on ',' into the eight headers |
| FilterView.CsvLineSplits | GingerApp2-main/components/FilterDashboard.tsx:131-147 | A line of a transaction without commas splits into its eight quoted cells |
| FilterView.ExportSplitsIntoLines | GingerApp2-main/components/FilterDashboard.tsx:131-147 | For transactions without newlines, splitting the export on newlines gives back its lines |
| FilterView.ExportReadsBack | GingerApp2-main/components/FilterDashboard.tsx:131-147 | The export reads back as the headers plus, for each row, the row's quoted cells |
| TransactionSchema.FieldIndex | GingerApp2-main/server/src/validators/transaction.schema.ts:3-18 | Each schema field has its position in the schema's field order |
| TransactionSchema.IssuesMeaning | GingerApp2-main/server/src/validators/transaction.schema.ts:3-18 | The issue list names exactly the fields that fail, in schema order, and is empty iff the payload is accepted |
| TransactionSchema.AcceptsIffNoFailure | GingerApp2-main/server/src/validators/transaction.schema.ts:3-18 | The schema accepts a payload exactly when no field's own constraint fails |
| TransactionSchema.IssuesFromMembers | GingerApp2-main/server/src/validators/transaction.schema.ts:3-18 | The issues from a position on are exactly the failing fields at or after it |
| TransactionSchema.IssuesFromOrdered | GingerApp2-main/server/src/validators/transaction.schema.ts:3-18 | The issues are listed in strictly increasing field order |
| TransactionSchema.ZeroAmountRejected | GingerApp2-main/server/src/validators/transaction.schema.ts:14-16 | A zero amount is an issue and the payload is refused |
| TransactionSchema.CalendarNotChecked | GingerApp2-main/server/src/validators/transaction.schema.ts:12 | The date check is a shape check only: 2025-02-31 and 2025-13-45 pass it |
| TransactionSchema.CategoryUnrestricted | GingerApp2-main/server/src/validators/transaction.schema.ts:10 | Any non-empty category is accepted, and an unknown name reads as the 'other' category |
| TransactionRoutes.EmailFromName | GingerApp2-main/server/src/routes/transactions.ts:19-22 | The address always ends in @fintrack.local after a non-empty local part |
| TransactionRoutes.SlugShape | GingerApp2-main/server/src/routes/transactions.ts:19-22 | The slug has no white space and no upper-case letters, and is empty iff the name is all white space (its full meaning is SlugMeaning) |
| TransactionRoutes.SlugMeaning | GingerApp2-main/server/src/routes/transactions.ts:19-22 | A blank name gives the empty slug; every other name decomposes into leading white space, words separated by white-space runs, and trailing white space, and its slug is those words lower-cased and joined by one "." each |
| TransactionRoutes.SlugOfWords | GingerApp2-main/server/src/routes/transactions.ts:19-22 | Trimming drops the white space around the words, lower-casing keeps the gaps, and each white-space run between two words becomes exactly one "." |
| TransactionRoutes.SlugOfSpacedWords | GingerApp2-main/server/src/routes/transactions.ts:19-22 | Words joined by single spaces slug to the lower-cased words joined by dots |
| TransactionRoutes.SlugIdempotent | GingerApp2-main/server/src/routes/transactions.ts:19-22 | Slugging a slug changes nothing |
| TransactionRoutes.BlankNameEmail | GingerApp2-main/server/src/routes/transactions.ts:19-22 | A blank name gives user@fintrack.local |
| TransactionRoutes.FindId | GingerApp2-main/server/src/routes/transactions.ts:193-200 | The lookup gives a position holding the id, or none when no record has it |
| TransactionRoutes.PayloadRecord | GingerApp2-main/server/src/routes/transactions.ts:88-105 | The stored record's date is the date `new Date` reads from the payload's text, a day past the month's end rolled into the next month; its ISO text is the payload's date exactly when no roll-over happens; category name, amount, name, account, sub-category and notes/description (missing read as "") come from the payload, under the given id |
| TransactionRoutes.OtherParty | GingerApp2-main/server/src/routes/transactions.ts:171 | The other party is Skenderi exactly for Burimi, and Burimi for every other name |
| TransactionRoutes.OtherPartyInvolution | GingerApp2-main/server/src/routes/transactions.ts:171 | For the two tracked names, the other party of the other party is the name itself |
| TransactionRoutes.Mirror | GingerApp2-main/server/src/routes/transactions.ts:172 | The mirror payload has the amount negated and the other party's name; all its other fields are the original's |
| TransactionRoutes.CreatedLegs | GingerApp2-main/server/src/routes/transactions.ts:149-180 | A transfer creates two records whose amounts sum to zero, the second being the mirror; any other category creates one |
| TransactionRoutes.ListingMeaning | GingerApp2-main/server/src/routes/transactions.ts:113-126 | The listing is a permutation of the records that are not negative transfers; a record is listed iff it is not one; the listing is newest first |
| TransactionRoutes.ListingShowsPostedLeg | GingerApp2-main/server/src/routes/transactions.ts:121-126 | Of a transfer posted with a positive amount, the posted leg is listed and its mirror is hidden |
| TransactionRoutes.ComparedFields | GingerApp2-main/server/src/routes/transactions.ts:218-260 | The update compares exactly eight fields |
| TransactionRoutes.ChangeLog | GingerApp2-main/server/src/routes/transactions.ts:218-260 | The logging loop keeps exactly the compared fields whose values differ, in field order |
| TransactionRoutes.ChangeLogMeaning | GingerApp2-main/server/src/routes/transactions.ts:218-260 | A field is logged iff its old and new values differ, notes and description being compared with missing values read as ""; every entry differs; at most eight entries |
| TransactionRoutes.UnchangedLogsNothing | GingerApp2-main/server/src/routes/transactions.ts:218-260 | Updating a record with the payload that produced it logs nothing when the date names a day inside its month; when it rolled over, exactly the date change is logged |
| TransactionRoutes.NormaliseDate | GingerApp2-main/server/src/routes/transactions.ts:363-374 | YYYY-MM-DD text is kept; a result is always YYYY-MM-DD shaped; text of neither shape gives none |
| TransactionRoutes.EuNormalises | GingerApp2-main/server/src/routes/transactions.ts:369-371 | The DD/MM/YYYY text of a date is rewritten to that date's YYYY-MM-DD text |
| TransactionRoutes.DateErrors | GingerApp2-main/server/src/routes/transactions.ts:360-382 | At most one reason, none iff the date is present, normalises and reads as a date, and 'missing' for an empty date |
| TransactionRoutes.NameErrors | GingerApp2-main/server/src/routes/transactions.ts:384-388 | No reason iff the name is Burimi or Skenderi, and 'missing' for an empty name |
| TransactionRoutes.AccountErrors | GingerApp2-main/server/src/routes/transactions.ts:390-392 | No reason iff an account is given |
| TransactionRoutes.CategoryErrors | GingerApp2-main/server/src/routes/transactions.ts:394-398 | No reason iff the category is one of the three names, and 'missing' for an empty one |
| TransactionRoutes.AmountErrors | GingerApp2-main/server/src/routes/transactions.ts:400-407 | No reason iff the amount reads as a number, and 'missing' when it is absent or empty |
| TransactionRoutes.RowErrorsMeaning | GingerApp2-main/server/src/routes/transactions.ts:360-411 | A row has no reasons iff all five checks pass, and has at most five |
| TransactionRoutes.ZeroAmountImported | GingerApp2-main/server/src/routes/transactions.ts:400-436 | Import accepts a zero amount in an otherwise valid row |
| TransactionRoutes.ImportCounts | GingerApp2-main/server/src/routes/transactions.ts:351-445 | Every row counts as exactly one success or one failure |
| TransactionRoutes.ImportedAreAcceptedRows | GingerApp2-main/server/src/routes/transactions.ts:351-445 | The imported records are the accepted rows, in order, each stored once and with no mirror |
| TransactionRoutes.FailuresNameRows | GingerApp2-main/server/src/routes/transactions.ts:351-445 | Each failure message is "Row {i+2}: " and the row's reasons joined by "; ", for a row that fails |
| TransactionRoutes.Store.constructor | GingerApp2-main/server/src/routes/transactions.ts:137-185 | The store starts empty |
| TransactionRoutes.Store.Insert | GingerApp2-main/server/src/routes/transactions.ts:149-152 | Appends the record under a fresh id that no stored record has |
| TransactionRoutes.Store.Create | GingerApp2-main/server/src/routes/transactions.ts:137-185 | A refused payload gives its issues and changes nothing; otherwise the record, and for a transfer its mirror, is appended and the posted leg returned |
| TransactionRoutes.Store.Update | GingerApp2-main/server/src/routes/transactions.ts:188-299 | A refused payload or an unknown id changes nothing (400 / 404); otherwise the record is replaced in place and the reply is the updated record; the change log and its count, which the route writes only into the UPDATE audit entry's details, are carried beside it |
| TransactionRoutes.Store.Delete | GingerApp2-main/server/src/routes/transactions.ts:301-333 | Removes exactly the record with the id; an unknown id is an error and changes nothing |
| TransactionRoutes.Store.Import | GingerApp2-main/server/src/routes/transactions.ts:336-468 | An empty request is refused; otherwise the accepted rows are appended and the report gives success, failed and the failure messages |
| TransactionRoutes.Store.ImportRowAt | GingerApp2-main/server/src/routes/transactions.ts:345-445 | A row is stored under the next number exactly when it has no reasons against it; otherwise the store is unchanged |
| CsvImport.LastPieceAfter | GingerApp2-main/components/ImportData.tsx:28-29 | The text after the last separator is that of the part after any earlier separator |
| CsvImport.AcceptedFileIff | GingerApp2-main/components/ImportData.tsx:28-29 | A file is accepted iff the lower-cased text after its last '.' is csv, xlsx or xls |
| CsvImport.Cells | GingerApp2-main/components/ImportData.tsx:44 | A line gives at least one cell, and no cell holds a double quote |
| CsvImport.RecordOfMeaning | GingerApp2-main/components/ImportData.tsx:59-62 | A record has a key exactly for each header, holding the same-index value or "" for a short row; a repeated header keeps its last column |
| CsvImport.BuildRecord | GingerApp2-main/components/ImportData.tsx:59-62 | The assignment loop builds the record of the headers and values |
| CsvImport.ReadLine | GingerApp2-main/components/ImportData.tsx:48-63 | A line gives a record iff it is not ',,,,,,,' and has a non-empty value, and then the record of its cells |
| CsvImport.ParseCsv | GingerApp2-main/components/ImportData.tsx:40-67 | The parsing loop yields the records of the kept data lines, in order |
| CsvImport.RowsOfStep | GingerApp2-main/components/ImportData.tsx:47-64 | One more data line adds its record when it is kept and nothing otherwise |
| CsvImport.RowsOfKept | GingerApp2-main/components/ImportData.tsx:47-64 | Every kept data line yields exactly one record, in order |
| CsvImport.CsvRecordsBound | GingerApp2-main/components/ImportData.tsx:41-64 | Fewer than two non-blank lines give no records; otherwise at most one record per data line |
| CsvImport.CsvRecordKeys | GingerApp2-main/components/ImportData.tsx:44-62 | Every record's keys are exactly the header cells, none holding a double quote |
| CsvImport.MissingFields | GingerApp2-main/components/ImportData.tsx:104-111 | At most the five required fields are reported |
| CsvImport.MissingFieldsMeaning | GingerApp2-main/components/ImportData.tsx:104-111 | No field is missing iff the row is complete, and each listed field is empty in the row |
| CsvImport.AmountOf | GingerApp2-main/components/ImportData.tsx:122 | The uploaded amount reads as the number its text parses to |
| CsvImport.FirstNonEmpty | GingerApp2-main/components/ImportData.tsx:121-124 | The fallback chain gives "" iff every choice is empty, and otherwise one of the choices |
| CsvImport.FirstNonEmptyPair | GingerApp2-main/components/ImportData.tsx:121-124 | Of two choices the first wins unless it is empty |
| CsvImport.UploadRow | GingerApp2-main/components/ImportData.tsx:116-126 | The upload has the row's fields; subCategory falls back to category and is never empty; notes come from 'note', then 'notes' |
| CsvImport.MapRecordsSuccess | GingerApp2-main/components/ImportData.tsx:102-127 | The mapping succeeds iff every record is complete |
| CsvImport.MapRecordsRows | GingerApp2-main/components/ImportData.tsx:102-127 | On success the upload has one row per record, in order |
| CsvImport.MapRecordsFailure | GingerApp2-main/components/ImportData.tsx:112-114 | On failure the error names the first incomplete record, as row index + 2, and its missing fields |
| CsvImport.UploadedRowPresence | GingerApp2-main/components/ImportData.tsx:102-127 | A complete uploaded row never fails the server's 'missing' checks, except an amount that does not parse |
| OptionLists.WithList | GingerApp2-main/OptionContext.tsx:84-87 | Replacing one list leaves the other lists as they were |
| OptionLists.AddOption | GingerApp2-main/OptionContext.tsx:77-89 | A blank value or a case-insensitive duplicate changes nothing; otherwise the trimmed value is appended to that list only |
| OptionLists.AddKeepsCaselessDistinct | GingerApp2-main/OptionContext.tsx:81-87 | Adding keeps a list free of case-insensitive duplicates, and a non-blank value is then in the list |
| OptionLists.AddIdempotent | GingerApp2-main/OptionContext.tsx:77-89 | Adding the same value twice is adding it once |
| OptionLists.RemoveOption | GingerApp2-main/OptionContext.tsx:91-96 | Removing drops the exact matches from that list and leaves the other lists as they were |
| OptionLists.RemoveMeaning | GingerApp2-main/OptionContext.tsx:91-96 | An entry stays iff it differs from the value, in order; removing an absent value changes nothing |
| OptionLists.RemoveKeepsCaselessDistinct | GingerApp2-main/OptionContext.tsx:91-96 | Removing keeps a list free of case-insensitive duplicates |
| OptionLists.FilterKeepsCaselessDistinct | GingerApp2-main/OptionContext.tsx:91-96 | Any filter of a list without case-insensitive duplicates has none |
| OptionLists.ArrayItemTexts | GingerApp2-main/OptionContext.tsx:35 | `String` of a stored array entry joins its elements' texts with ",", a null element giving "", and an object reads "[object Object]" |
| OptionLists.NormalizeList | GingerApp2-main/OptionContext.tsx:33-38 | A stored array gives its trimmed non-empty texts, each exactly once, and in the order of their first occurrences; anything else gives the fallback |
| OptionLists.CleanedTexts | GingerApp2-main/OptionContext.tsx:35 | The cleaned texts are exactly the non-empty trimmed texts of the entries |
| OptionLists.DistinctCleaned | GingerApp2-main/OptionContext.tsx:35 | De-duplicating the cleaned texts keeps each once, exactly the non-empty cleaned entries, ordered by first occurrence |
| OptionLists.NormalizedEntriesTrimmed | GingerApp2-main/OptionContext.tsx:35 | Every normalised entry is non-empty and trimmed |
| OptionLists.RestoreNormalList | GingerApp2-main/OptionContext.tsx:33-64 | Normalising a stored list that was already normal gives it back |
| OptionLists.LoadOptions | GingerApp2-main/OptionContext.tsx:40-59 | Nothing stored, or unreadable storage, gives the defaults; otherwise each key is normalised with its default as fallback |
| TransactionSearch.SearchMeaning | GingerApp2-main/components/TransactionList.tsx:18-25 | A transaction matches iff the lower-cased term occurs in a lower-cased text field or the raw term occurs in the amount's text; the result is in input order |
| TransactionSearch.EmptySearchKeepsAll | GingerApp2-main/components/TransactionList.tsx:18-25 | An empty term keeps every transaction |
| TransactionSearch.SearchCaseInsensitive | GingerApp2-main/components/TransactionList.tsx:18-25 | The text match does not depend on the term's case |
| TransactionSearch.SliceTo | GingerApp2-main/components/TransactionList.tsx:28 | A non-negative limit takes that many from the front; a negative one drops that many from the back |
| TransactionSearch.DisplayedMeaning | GingerApp2-main/components/TransactionList.tsx:28-109 | No limit shows all matches; a limit shows the first matches, and the footer appears iff matches were cut off |
| ApiMapping.HandleResponse | GingerApp2-main/services/dataService.ts:16-22 | An ok response gives its body; otherwise an error with the body text or, for an empty body, a non-empty default |
| ApiMapping.MapApiTransaction | GingerApp2-main/services/dataService.ts:24-34 | The id passes through and the name is the user's full name; the date is all of txnDate when it has no 'T', else exactly the part before the first 'T'; the amount is `Number(amount) \|\| 0`; present account, notes, description and sub-category name pass through; missing parts become "" and a missing category is the expense category |
| ApiMapping.AmountNumber | GingerApp2-main/services/dataService.ts:31 | null gives 0, a number gives itself, integer text (blanks around it allowed) gives its value, and any other text gives 0 |
| ApiMapping.SplitFirstIsPrefix | GingerApp2-main/services/dataService.ts:26 | The first piece of a split is a prefix of the text: the whole text, or the stretch ending just before the first separator |
| ApiMapping.StampDatePart | GingerApp2-main/services/dataService.ts:26 | The date part of a stored timestamp is its YYYY-MM-DD text |
| ApiMapping.AmountTextRoundTrip | GingerApp2-main/services/dataService.ts:31 | An amount sent as decimal text reads back as the same number |
| ApiMapping.MapApiRoundTrip | GingerApp2-main/services/dataService.ts:24-34 | Mapping the API form of a record gives back the record's fields, and a well-formed category |
| AuditLogger.ClientIp | GingerApp2-main/server/src/utils/auditLogger.ts:40-46 | Without a forwarded header the address is the remote address, or 'unknown' when there is none; a forwarded address holds no comma |
| AuditLogger.ForwardedClientIp | GingerApp2-main/server/src/utils/auditLogger.ts:40-46 | A forwarded header gives its first comma-separated element, trimmed |
| AuditLogger.LoggedEntry | GingerApp2-main/server/src/utils/auditLogger.ts:16-38 | An entry records the user, action and time, and the request's client address and user agent when there is a request |
| AuditLogger.BuildWhere | GingerApp2-main/server/src/utils/auditLogger.ts:55-73 | The where object selects exactly the entries the filters admit, with a clause only for each supplied filter |
| AuditLogger.TakeRows | GingerApp2-main/server/src/utils/auditLogger.ts:78 | At most the page size's magnitude and at most all rows are taken |
| AuditLogger.AuditQuery | GingerApp2-main/server/src/utils/auditLogger.ts:48-80 | A page never holds more rows than are stored, nor more than the page size's magnitude, nor more than 100 without a limit; AuditQueryMeaning gives the rest |
| AuditLogger.AuditQueryMeaning | GingerApp2-main/server/src/utils/auditLogger.ts:48-80 | Every result is a stored entry satisfying the supplied filters with inclusive date bounds; results are newest first; the page holds min(page size, admitted entries) of them, 100 when no limit is given; when the admitted entries fit, all of them are listed; an admitted entry left out is no newer than any listed one (no older for a negative page size) |
| AuditLogger.QueriedAdmitted | GingerApp2-main/server/src/utils/auditLogger.ts:48-80 | Any entry of a listing is a stored entry the filters admit |
| AuditLogger.AuditQuerySound | GingerApp2-main/server/src/utils/auditLogger.ts:48-80 | Every result is a stored entry the filters admit, and results are newest first |
| AuditLogger.ListingLength | GingerApp2-main/server/src/utils/auditLogger.ts:75-79 | A listing holds min(page size, admitted entries) rows, the page size read by its magnitude |
| AuditLogger.TakeRowsNewest | GingerApp2-main/server/src/utils/auditLogger.ts:77-78 | From a sorted list, taking from the front leaves out only rows sorting after every kept row, and taking from the back only rows sorting before them |
| AuditLogger.AdmittedSorted | GingerApp2-main/server/src/utils/auditLogger.ts:75-77 | Every stored, admitted entry is among the sorted admitted entries |
| AuditLogger.AuditQueryComplete | GingerApp2-main/server/src/utils/auditLogger.ts:48-80 | When the admitted entries fit in one page, every one of them is listed |
| AuditLogger.AuditQueryNewest | GingerApp2-main/server/src/utils/auditLogger.ts:75-79 | An admitted entry left out of a listing is no newer than any listed entry, or no older with a negative page size |
| AuditLogger.TakenIndex | GingerApp2-main/server/src/utils/auditLogger.ts:78 | The taken rows are a run of consecutive rows of the sorted input |
| AuditLogger.WhereQueriesAlike | GingerApp2-main/server/src/utils/auditLogger.ts:55-79 | Querying with the where object is filtering with the filters |
| AuditLogger.FirstWith | GingerApp2-main/server/src/utils/auditLogger.ts:112-113 | No time iff no entry has the action; otherwise the time of the first entry with it |
| AuditLogger.UserActivity | GingerApp2-main/server/src/utils/auditLogger.ts:82-131 | The report names the user, has period exactly "Last {days} days" and at most 20 recent entries |
| AuditLogger.CountsPartition | GingerApp2-main/server/src/utils/auditLogger.ts:102-107 | The six action counts together with the uncounted entries make up all the entries |
| AuditLogger.StatisticsOf | GingerApp2-main/server/src/utils/auditLogger.ts:118-126 | totalActions is the number of entries in the period, and the six action counts plus the uncounted entries make it up |
| AuditLogger.StatisticsBound | GingerApp2-main/server/src/utils/auditLogger.ts:118-126 | totalActions is the six counts plus the uncounted entries, so the counts sum to at most totalActions |
| AuditLogger.FirstIsLatest | GingerApp2-main/server/src/utils/auditLogger.ts:95-113 | In a newest-first list the first entry with an action is the latest one |
| AuditLogger.UserActivityMeaning | GingerApp2-main/server/src/utils/auditLogger.ts:82-131 | totalActions counts the user's entries in the period; recentActivity is their first 20; lastLogin is none iff there is no login and lastLogout none iff there is no logout; when present they are the latest |
| AuditLogger.LatestWith | GingerApp2-main/server/src/utils/auditLogger.ts:112-113 | In a newest-first list, no entry is found with an action iff none has it, and the one found is the latest |
| AuditLogger.ActivityLogsScope | GingerApp2-main/server/src/utils/auditLogger.ts:87-96 | An entry is counted iff it is stored, is the user's (compared case-insensitively) and is within the period; each such entry is counted as often as it is stored |
| AuditRoutes.PostLog | GingerApp2-main/server/src/routes/audit.ts:7-48 | Without a username the reply is 400 and nothing is written; otherwise 200 and exactly one entry is appended |
| AuditRoutes.PostLoginCounts | GingerApp2-main/server/src/routes/audit.ts:7-26 | A login request adds one login, and no other action, when it names a user, and nothing otherwise |
| AuditRoutes.FiltersOf | GingerApp2-main/server/src/routes/audit.ts:55-60 | Only supplied parameters become filters; the page size is the parsed limit, or 100 when it is absent, zero or not a number |
| AuditRoutes.Listed | GingerApp2-main/server/src/routes/audit.ts:67-76 | A listed entry has null details exactly when the stored details are empty or missing |
| AuditRoutes.GetLogs | GingerApp2-main/server/src/routes/audit.ts:51-82 | count is the number of listed entries |
| AuditRoutes.GetLogsMeaning | GingerApp2-main/server/src/routes/audit.ts:51-82 | Every listed entry satisfies the supplied username, action and date filters; the listing is newest first; count is min(page size, admitted entries), at most 100 without a limit; all admitted entries are listed when they fit; an admitted entry left out is no newer than any listed one for a non-negative limit |
| AuditRoutes.GetSessions | GingerApp2-main/server/src/routes/audit.ts:125-160 | count is the number of sessions, one per merged entry and in its order, each keeping that entry's fields |
| AuditRoutes.SessionOf | GingerApp2-main/server/src/routes/audit.ts:143-149 | A session keeps the entry's username, action, timestamp, address and user agent |
| AuditRoutes.SortByMember | GingerApp2-main/server/src/routes/audit.ts:141-142 | Sorting only rearranges: every sorted element is from the input |
| AuditRoutes.MergedSessions | GingerApp2-main/server/src/routes/audit.ts:129-142 | The merged history is a permutation of the login query's and the logout query's results, newest first |
| AuditRoutes.SessionsCount | GingerApp2-main/server/src/routes/audit.ts:129-155 | The history is exactly the latest logins and the latest logouts, each as often as its query lists it (a permutation of the two lists), so at most 100 |
| AuditRoutes.MergedEntryAction | GingerApp2-main/server/src/routes/audit.ts:137-141 | An entry of the merged history is a login or a logout, of the named user when one is given |
| AuditRoutes.SessionsActions | GingerApp2-main/server/src/routes/audit.ts:137-149 | Every session is a login or a logout, of the named user when one is given |
| AuditRoutes.SessionsOrder | GingerApp2-main/server/src/routes/audit.ts:141-142 | The history is newest first |
| TransactionForm.WithField | GingerApp2-main/components/TransactionForm.tsx:62-64 | The field takes the value and no other field changes |
| TransactionForm.FieldText | GingerApp2-main/components/TransactionForm.tsx:151 | The amount field shows empty exactly when the amount is falsy (the number 0 or the empty text) |
| TransactionForm.Submitted | GingerApp2-main/components/TransactionForm.tsx:40-50 | The submitted transaction copies the form's fields and its amount as a number |
| TransactionForm.ClearedMeaning | GingerApp2-main/components/TransactionForm.tsx:54-59 | After a submit the amount is 0 and shows as empty, and notes and description are empty; date, account, category, sub-category and name keep their values; the cleared form cannot be submitted |
| TransactionForm.ZeroTextPassesGuard | GingerApp2-main/components/TransactionForm.tsx:38 | The amount text "0" with a date passes the written guard and submits a zero amount |
| TransactionForm.SubmitAllowedMeaning | GingerApp2-main/components/TransactionForm.tsx:38 | The intended guard is the written one plus a non-zero submitted amount |
| TransactionForm.FormState.constructor | GingerApp2-main/components/TransactionForm.tsx:25-34 | The form starts at today's date, the first entry of each list, amount 0 and no notes or description |
| TransactionForm.FormState.HandleChange | GingerApp2-main/components/TransactionForm.tsx:62-73 | Sets only the named field, except that choosing 'Transfere' also clears the sub-category |
| TransactionForm.FormState.HandleSubmit | GingerApp2-main/components/TransactionForm.tsx:36-60 | The corrected submit (see Findings): it carries the intended guard, so without a non-zero amount or a date nothing happens; otherwise the transaction is handed on and the form is cleared |
| TransactionForm.ChangeMeaning | GingerApp2-main/components/TransactionForm.tsx:62-72 | Choosing the transfer category leaves the sub-category empty and every other field except the category unchanged |
| OptionManager.RemoveClick | GingerApp2-main/components/OptionManager.tsx:48-55 | A click on the pending entry removes it and clears the pending one; any other click only marks its entry |
| OptionManager.TwoClicksRemove | GingerApp2-main/components/OptionManager.tsx:48-55 | Two clicks on the same entry remove it and leave nothing pending |
| OptionManager.OtherClickCancels | GingerApp2-main/components/OptionManager.tsx:48-55 | A click on another entry in between removes nothing |
| OptionManager.DefaultEntryProtected | GingerApp2-main/components/OptionManager.tsx:45-104 | `isDefaultValue`: a default entry's remove button is disabled and it never shows the in-use badge, whatever the transactions; a click on it changes nothing |
| OptionManager.InUseEntryProtected | GingerApp2-main/components/OptionManager.tsx:38-104 | `isValueInUse`: the value any transaction holds in the list's field is in use, its button is disabled, a click changes nothing, and it shows the in-use badge iff it is not a default |
| OptionManager.FreeEntryRemovable | GingerApp2-main/components/OptionManager.tsx:45-104 | An entry that is neither a default nor held by any transaction has an enabled button and no badge, and a click on it is the two-click removal (`EnabledClick` is `RemoveClick`) |
| OptionManager.ProtectedEntriesStay | GingerApp2-main/components/OptionManager.tsx:103-104 | A default or in-use entry is never removed by a click |
| OptionManager.AddTrimmedIsAdd | GingerApp2-main/components/OptionManager.tsx:29-34 | Adding the trimmed input is adding the input itself, and a blank input adds nothing |
| OptionManager.Manager.constructor | GingerApp2-main/components/OptionManager.tsx:21-27 | Every input starts empty and nothing is pending |
| OptionManager.Manager.SetInput | GingerApp2-main/components/OptionManager.tsx:76 | Typing changes only that list's input |
| OptionManager.Manager.HandleAdd | GingerApp2-main/components/OptionManager.tsx:29-34 | A blank input does nothing; otherwise the trimmed text is added and only that list's input is cleared |
| OptionManager.Manager.HandleRemove | GingerApp2-main/components/OptionManager.tsx:48-55 | The lists and the pending entry change as one click does; the inputs stay |
| PasswordManager.ChangeProblem | GingerApp2-main/components/PasswordManager.tsx:57-65 | Differing entries are reported before length; no problem iff the entries agree and are at least six UTF-16 units long |
| PasswordManager.ResetProblem | GingerApp2-main/components/PasswordManager.tsx:99-107 | A missing user is reported before length; no problem iff a user is chosen and the password is at least six UTF-16 units long |
| PasswordManager.WidePasswordLongEnough | GingerApp2-main/components/PasswordManager.tsx:62-104 | Three characters from U+10000 on (three emoji) are six units, so both checks let such a password through |
| PasswordManager.ChangeMessage | GingerApp2-main/components/PasswordManager.tsx:79-89 | The message is a success iff the reply is ok, and it is never empty |
| PasswordManager.ResetMessage | GingerApp2-main/components/PasswordManager.tsx:121-131 | The message is a success iff the reply is ok, and it is never empty |
| PasswordManager.ResetTargetsMeaning | GingerApp2-main/components/PasswordManager.tsx:46 | The reset list is exactly the other users, in the server's order |
| PasswordManager.Screen.constructor | GingerApp2-main/components/PasswordManager.tsx:17-31 | Every input and message starts empty |
| PasswordManager.Screen.SetChangeInputs | GingerApp2-main/components/PasswordManager.tsx:19-21 | Typing changes only the three change inputs |
| PasswordManager.Screen.SetResetInputs | GingerApp2-main/components/PasswordManager.tsx:29-30 | Choosing a user and typing changes only the two reset inputs |
| PasswordManager.Screen.FetchUsers | GingerApp2-main/components/PasswordManager.tsx:33-51 | Only when `ShowsResetSection` holds (the `isBurim` test of line 33, which also gates the reset section at line 222) and the answer is ok does the user list become the other users; nothing else changes |
| PasswordManager.Screen.HandleChangePassword | GingerApp2-main/components/PasswordManager.tsx:53-93 | A failed check shows its message and sends nothing; otherwise the request is sent and a success clears the three inputs |
| PasswordManager.Screen.HandleResetPassword | GingerApp2-main/components/PasswordManager.tsx:95-134 | A failed check shows its message and sends nothing; otherwise the request is sent and a success clears both inputs |

## Left out

- Database persistence. The `ensureUser`/`ensureProject`/`ensureAccount`/`ensureSubcategory` upserts (transactions.ts:24-86) are not modelled; the store is a sequence of records.
- Atomicity of the two inserts that create a transfer: a database concern. The model appends both legs in one step.
- The mirrored leg of a transfer passes through the same field mapping as the posted one; user and project resolution for either leg is not modelled.
- The import's `DEFAULT_PROJECT_NAME` and the client's fixed project name 'Ginger HQ': project and user records are not part of the model.
- The GET route's `projectId` filter: the store holds no project relation.
- The schema's UUID and 500-character rules are checked as shapes and lengths. The zod library's own UUID grammar beyond hex digits and dashes is not modelled.
- Floating-point amounts. Amounts are integers, and `parseFloat`/`parseInt`/`Number` are modelled for integer text only, so prefix parsing ("12abc") and fractions are not modelled.
- Dashboard.MetricsMeaning: the `avgTransaction` division is not modelled, because it is a floating-point division including 0/0.
- The `trend` metric, which depends on the current time.
- The dashboard's `recentActivity` list.
- Locale month labels: a fixed English month table is used.
- Case folding is ASCII only: Unicode lower-casing is not modelled. Trimming and the white-space runs of the slug use JavaScript's full white-space set. String lengths (the six-character password rule, zod's `max(500)`) and the default string sort count and compare UTF-16 code units (`Text.CodeUnits`); every other string operation, such as `slice`, indexing and `split`, works on code points, which matches JavaScript only for text without characters from U+10000 on.
- Time zones. Dates are (year, month, day) triples, and the `Invalid Date` check on stored dates has no counterpart.
- Ledger.Rollover: a day past its month's end moves into the next month, as the V8 engine under Node reads `new Date("YYYY-MM-DD")`. Engines that give `Invalid Date` for such text are not modelled.
- Audit timestamps are integers and a day is `DAY_MS` milliseconds.
- Dashboard.CashFlow: the in-place `sort` of the caller's array (VisualDashboard.tsx:83, 137) is modelled as producing a new sorted sequence. The aliasing, which reorders the parent's transaction array, is not captured.
- AuditLogger.TakeRows: a negative page size takes the last |n| rows of the newest-first list, in that order, as Prisma's `take` does with a negative count.
- AuditRoutes.FiltersOf: the `startDate` and `endDate` texts are read by `new Date(...)` (audit.ts:58-59), while `LogQuery` takes timestamps already read. A date text that does not read as a date makes the database query fail, and the 500 reply of audit.ts:78-81 that follows has no counterpart.
- JSON: the parsing of audit `details`, and the JSON stored in `localStorage`, are represented by already-parsed values or a parse-failure case. Stored list entries are strings, integers, booleans, null, objects and arrays of these; a fractional or exponent number entry (whose `String` is "1.5" or "1e+21") is not modelled.
- How `createAuditLog` swallows database errors, and console logging.
- TransactionRoutes.Store.Create, TransactionRoutes.Store.Update, TransactionRoutes.Store.Delete and TransactionRoutes.Store.Import do not write the CREATE, UPDATE, DELETE and IMPORT audit entries of transactions.ts:155-167, 263-293, 314-327 and 451-461: the store holds no audit log, and the entries' shape is modelled once, by `AuditLogger.LoggedEntry`. The `changes` and `changesCount` of `Updated` stand for the UPDATE entry's `details`; its `originalValues` and `newValues` are not modelled. The PUT reply itself is only the updated record (transactions.ts:295).
- Network fetches: replies and answers are parameters of the handlers.
- Rendering, JSX, charts and the show/hide password toggles.
- React hook ordering (the hooks after the early return in TransactionForm.tsx), and that early return itself: a role other than 'ADMIN' renders no form (TransactionForm.tsx:21-23), so `FormState` is the administrator's form and no role is modelled.
- TransactionForm.FirstOr: with an empty option list the form's initial value is `undefined` (TransactionForm.tsx:27-32), so the field is absent from the submitted JSON; the model starts that field as the empty text.
- Translations: message keys are kept as keys.
- `FileReader` and `crypto.randomUUID`: the file text is a parameter, and new ids are parameters or come from a counter.
- Polling in ActivityMonitor.tsx, AiInsights.tsx, authentication (auth.ts, Login.tsx) and the Express wiring: these are not part of this model.

## Findings

| source | as written | input that shows it | evidently intended | confidence | as-written member | corrected member |
|---|---|---|---|---|---|---|
| GingerApp2-main/components/TransactionForm.tsx:38 | the guard refuses only a falsy amount or an empty date, so any non-empty amount text passes | amount text "0" with a date: the form hands on a transaction with amount 0, which the server schema refuses (transaction.schema.ts:14-16) | submit only with a non-zero amount and a date | not executed | TransactionForm.ZeroTextPassesGuard | TransactionForm.FormState.HandleSubmit |
