/** The monthly matrix report: transactions are bucketed into one row per
    month label ("Jan-25"), each row holding five cells per tracked party
    (income and expense split by the 'GINGER' sub-category, and transfers)
    plus a POS column; the party totals carry the transfer cross-terms; the
    rows are sorted by year and month, summed column-wise in a footer and
    grouped into per-year tables. */
module MonthlyReport {
  import opened Common
  import opened Text
  import opened Ledger
  import opened Grouping

  // ---------------------------------------------------------------------------
  // Row keys

  type MonthIndex = m: int | 0 <= m < 12

  /** `String(year).slice(-2)`: the last two characters of the year's decimal
      text, that is the year's last two digits ("25" for 2025, "5" for year 5). */
  function YearSuffix(year: Year): (s: string)
    ensures year < 10 ==> s == [DigitChar(year)]
    ensures year >= 10 ==> s == [DigitChar(year / 10 % 10), DigitChar(year % 10)]
  {
    var text := NatToString(year);
    // Below 100 the text has at most two characters and the slice is all of it.
    if year < 10 then text
    else if year < 100 then
      assert text == NatToString(year / 10) + [DigitChar(year % 10)];
      text
    else
      LastDigit(year);
      LastDigit(year / 10);
      assert text[..|text| - 1] == NatToString(year / 10);
      text[|text| - 2..]
  }

  /** The digits that `slice(-2)` keeps repeat every century. */
  lemma YearSuffixCentury(year: Year)
    requires 10 <= year && year + 100 <= 9999
    ensures YearSuffix(year) == YearSuffix(year + 100)
  {
  }

  /** Hence one month a century apart gets one label: January 1925 and
      January 2025 are both "Jan-25", and their transactions share one row. */
  lemma CenturyApartShareLabel(t: Transaction, u: Transaction)
    requires t.date.month == u.date.month && u.date.year == t.date.year + 100 && t.date.year >= 10
    ensures LabelKey(t) == LabelKey(u)
  {
    YearSuffixCentury(t.date.year);
  }

  /** The row key and label: month name, '-', two-digit year. */
  function MonthLabel(year: Year, monthIndex: MonthIndex): string
  {
    MONTH_NAMES[monthIndex] + "-" + YearSuffix(year)
  }

  function Label(d: Date): string
  {
    MonthLabel(d.year, d.month - 1)
  }

  /** The row key of a transaction: the label of its date. */
  function LabelKey(t: Transaction): string
  {
    Label(t.date)
  }

  // ---------------------------------------------------------------------------
  // Cells and routing

  /** The ten per-party cells of a row. */
  datatype Slot =
    | BurimiIncomeGinger | BurimiExpenseGinger | BurimiTransfer | BurimiIncomeOther | BurimiExpenseOther
    | SkenderiIncomeGinger | SkenderiExpenseGinger | SkenderiTransfer | SkenderiIncomeOther | SkenderiExpenseOther

  /** The cell a transaction is added to, following the name/category/sub-category chain. */
  function PartySlot(t: Transaction): Option<Slot>
  {
    var ginger := t.subCategory == GINGER;
    if t.name == BURIMI then
      if t.category == Income then Some(if ginger then BurimiIncomeGinger else BurimiIncomeOther)
      else if t.category == Expense then Some(if ginger then BurimiExpenseGinger else BurimiExpenseOther)
      else if t.category == Transfer then Some(BurimiTransfer)
      else None
    else if t.name == SKENDERI then
      if t.category == Income then Some(if ginger then SkenderiIncomeGinger else SkenderiIncomeOther)
      else if t.category == Expense then Some(if ginger then SkenderiExpenseGinger else SkenderiExpenseOther)
      else if t.category == Transfer then Some(SkenderiTransfer)
      else None
    else None
  }

  /** The party whose columns hold a cell. */
  function SlotParty(s: Slot): string
  {
    match s
    case BurimiIncomeGinger | BurimiExpenseGinger | BurimiTransfer | BurimiIncomeOther | BurimiExpenseOther => BURIMI
    case _ => SKENDERI
  }

  /** The category a cell collects. */
  function SlotCategory(s: Slot): Category
  {
    match s
    case BurimiIncomeGinger | BurimiIncomeOther | SkenderiIncomeGinger | SkenderiIncomeOther => Income
    case BurimiExpenseGinger | BurimiExpenseOther | SkenderiExpenseGinger | SkenderiExpenseOther => Expense
    case _ => Transfer
  }

  predicate IsGingerSlot(s: Slot)
  {
    s in {BurimiIncomeGinger, BurimiExpenseGinger, SkenderiIncomeGinger, SkenderiExpenseGinger}
  }

  predicate IsOtherSlot(s: Slot)
  {
    s in {BurimiIncomeOther, BurimiExpenseOther, SkenderiIncomeOther, SkenderiExpenseOther}
  }

  /** Declarative description of which transactions a cell collects. */
  predicate Collects(s: Slot, t: Transaction)
  {
    t.name == SlotParty(s) && t.category == SlotCategory(s)
    && (IsGingerSlot(s) ==> t.subCategory == GINGER)
    && (IsOtherSlot(s) ==> t.subCategory != GINGER)
  }

  /** The routing chain sends a transaction to a cell exactly when that cell collects it;
      a name other than the two tracked ones, or an unknown category, reaches no cell. */
  lemma RoutingIsCollects(t: Transaction, s: Slot)
    ensures PartySlot(t) == Some(s) <==> Collects(s, t)
    ensures PartySlot(t) == None <==> !IsTrackedName(t.name) || t.category.Other?
  {
  }

  /** The eleven accumulators of a row (ten cells and POS). */
  datatype Cells = Cells(
    bIncomeGinger: int, bExpenseGinger: int, bTransfer: int, bIncomeOther: int, bExpenseOther: int,
    sIncomeGinger: int, sExpenseGinger: int, sTransfer: int, sIncomeOther: int, sExpenseOther: int,
    pos: int)

  const ZERO_CELLS: Cells := Cells(0, 0, 0, 0, 0, 0, 0, 0, 0, 0, 0)

  function Get(c: Cells, s: Slot): int
  {
    match s
    case BurimiIncomeGinger => c.bIncomeGinger
    case BurimiExpenseGinger => c.bExpenseGinger
    case BurimiTransfer => c.bTransfer
    case BurimiIncomeOther => c.bIncomeOther
    case BurimiExpenseOther => c.bExpenseOther
    case SkenderiIncomeGinger => c.sIncomeGinger
    case SkenderiExpenseGinger => c.sExpenseGinger
    case SkenderiTransfer => c.sTransfer
    case SkenderiIncomeOther => c.sIncomeOther
    case SkenderiExpenseOther => c.sExpenseOther
  }

  /** `stats.<cell> += v`: adds to the one cell and leaves every other accumulator alone. */
  function AddTo(c: Cells, s: Slot, v: int): (r: Cells)
    ensures Get(r, s) == Get(c, s) + v
    ensures forall s' :: s' != s ==> Get(r, s') == Get(c, s')
    ensures r.pos == c.pos
  {
    match s
    case BurimiIncomeGinger => c.(bIncomeGinger := c.bIncomeGinger + v)
    case BurimiExpenseGinger => c.(bExpenseGinger := c.bExpenseGinger + v)
    case BurimiTransfer => c.(bTransfer := c.bTransfer + v)
    case BurimiIncomeOther => c.(bIncomeOther := c.bIncomeOther + v)
    case BurimiExpenseOther => c.(bExpenseOther := c.bExpenseOther + v)
    case SkenderiIncomeGinger => c.(sIncomeGinger := c.sIncomeGinger + v)
    case SkenderiExpenseGinger => c.(sExpenseGinger := c.sExpenseGinger + v)
    case SkenderiTransfer => c.(sTransfer := c.sTransfer + v)
    case SkenderiIncomeOther => c.(sIncomeOther := c.sIncomeOther + v)
    case SkenderiExpenseOther => c.(sExpenseOther := c.sExpenseOther + v)
  }

  /** One step of the bucketing loop on the row's accumulators. */
  function AddTransaction(c: Cells, t: Transaction): Cells
  {
    var routed := match PartySlot(t) case None => c case Some(s) => AddTo(c, s, t.amount);
    if t.subCategory == POS then routed.(pos := routed.pos + t.amount) else routed
  }

  /** A transaction adds its amount to every cell that collects it and to
      POS when its sub-category is 'POS', and changes nothing else. */
  lemma AddTransactionEffect(c: Cells, t: Transaction)
    ensures forall s :: Get(AddTransaction(c, t), s) == Get(c, s) + (if Collects(s, t) then t.amount else 0)
    ensures AddTransaction(c, t).pos == c.pos + (if t.subCategory == POS then t.amount else 0)
  {
    forall s
      ensures Get(AddTransaction(c, t), s) == Get(c, s) + (if Collects(s, t) then t.amount else 0)
    {
      RoutingIsCollects(t, s);
    }
  }

  /** The accumulators after adding `ts` in order to a fresh row. */
  function MonthCells(ts: seq<Transaction>): Cells
  {
    if ts == [] then ZERO_CELLS else AddTransaction(MonthCells(ts[..|ts| - 1]), ts[|ts| - 1])
  }

  function SlotAmount(s: Slot): Transaction -> int
  {
    (t: Transaction) => if Collects(s, t) then t.amount else 0
  }

  function PosAmount(t: Transaction): int
  {
    if t.subCategory == POS then t.amount else 0
  }

  /** Each cell is the sum of the amounts it collects, and POS the sum of the
      'POS' amounts whatever their name or category. */
  lemma {:induction false} MonthCellsAreSums(ts: seq<Transaction>)
    ensures forall s :: Get(MonthCells(ts), s) == SumOf(ts, SlotAmount(s))
    ensures MonthCells(ts).pos == SumOf(ts, PosAmount)
    decreases |ts|
  {
    if ts != [] {
      var init := ts[..|ts| - 1];
      var last := ts[|ts| - 1];
      assert ts == init + [last];
      MonthCellsAreSums(init);
      AddTransactionEffect(MonthCells(init), last);
      forall s
        ensures Get(MonthCells(ts), s) == SumOf(ts, SlotAmount(s))
      {
        SumOfAppend(init, [last], SlotAmount(s));
      }
      SumOfAppend(init, [last], PosAmount);
    }
  }

  // ---------------------------------------------------------------------------
  // Party totals

  /** `burimi_total`: own income, plus Skenderi's transfers, minus own transfers and expenses. */
  function BurimiTotalOf(c: Cells): int
  {
    (c.bIncomeGinger + c.bIncomeOther) + c.sTransfer - c.bTransfer - c.bExpenseGinger - c.bExpenseOther
  }

  /** `skenderi_total`, the mirror image. */
  function SkenderiTotalOf(c: Cells): int
  {
    (c.sIncomeGinger + c.sIncomeOther) + c.bTransfer - c.sTransfer - c.sExpenseGinger - c.sExpenseOther
  }

  /** The other tracked party. */
  function Partner(party: string): string
  {
    if party == BURIMI then SKENDERI else BURIMI
  }

  /** What one transaction does to a party's position: own income adds, own
      expenses and own transfers subtract, and the partner's transfers add. */
  function PositionChange(party: string): Transaction -> int
  {
    (t: Transaction) =>
      if t.name == party then
        (if t.category == Income then t.amount
         else if t.category == Expense || t.category == Transfer then -t.amount
         else 0)
      else if t.name == Partner(party) && t.category == Transfer then t.amount
      else 0
  }

  lemma {:induction false} MonthCellsFold(ts: seq<Transaction>, g: Cells -> int, h: Transaction -> int)
    requires g(ZERO_CELLS) == 0
    requires forall c, t :: g(AddTransaction(c, t)) == g(c) + h(t)
    ensures g(MonthCells(ts)) == SumOf(ts, h)
    decreases |ts|
  {
    if ts != [] {
      var init := ts[..|ts| - 1];
      assert ts == init + [ts[|ts| - 1]];
      MonthCellsFold(init, g, h);
      SumOfAppend(init, [ts[|ts| - 1]], h);
    }
  }

  function CellsNet(c: Cells): int
  {
    BurimiTotalOf(c) + SkenderiTotalOf(c)
  }

  /** Reading the eleven accumulators after one step. */
  lemma StepFields(c: Cells, t: Transaction, r: Cells)
    requires r == AddTransaction(c, t)
    ensures r.bIncomeGinger == c.bIncomeGinger + SlotAmount(BurimiIncomeGinger)(t)
    ensures r.bIncomeOther == c.bIncomeOther + SlotAmount(BurimiIncomeOther)(t)
    ensures r.bExpenseGinger == c.bExpenseGinger + SlotAmount(BurimiExpenseGinger)(t)
    ensures r.bExpenseOther == c.bExpenseOther + SlotAmount(BurimiExpenseOther)(t)
    ensures r.bTransfer == c.bTransfer + SlotAmount(BurimiTransfer)(t)
    ensures r.sIncomeGinger == c.sIncomeGinger + SlotAmount(SkenderiIncomeGinger)(t)
    ensures r.sIncomeOther == c.sIncomeOther + SlotAmount(SkenderiIncomeOther)(t)
    ensures r.sExpenseGinger == c.sExpenseGinger + SlotAmount(SkenderiExpenseGinger)(t)
    ensures r.sExpenseOther == c.sExpenseOther + SlotAmount(SkenderiExpenseOther)(t)
    ensures r.sTransfer == c.sTransfer + SlotAmount(SkenderiTransfer)(t)
  {
    AddTransactionEffect(c, t);
    assert Get(r, BurimiIncomeGinger) == r.bIncomeGinger && Get(r, BurimiIncomeOther) == r.bIncomeOther;
    assert Get(r, BurimiExpenseGinger) == r.bExpenseGinger && Get(r, BurimiExpenseOther) == r.bExpenseOther;
    assert Get(r, SkenderiIncomeGinger) == r.sIncomeGinger && Get(r, SkenderiIncomeOther) == r.sIncomeOther;
    assert Get(r, SkenderiExpenseGinger) == r.sExpenseGinger && Get(r, SkenderiExpenseOther) == r.sExpenseOther;
    assert Get(r, BurimiTransfer) == r.bTransfer && Get(r, SkenderiTransfer) == r.sTransfer;
  }

  /** Burimi's position change, read off the cells that collect it. */
  lemma BurimiSlots(t: Transaction)
    ensures PositionChange(BURIMI)(t)
      == (SlotAmount(BurimiIncomeGinger)(t) + SlotAmount(BurimiIncomeOther)(t)) + SlotAmount(SkenderiTransfer)(t)
         - SlotAmount(BurimiTransfer)(t) - SlotAmount(BurimiExpenseGinger)(t) - SlotAmount(BurimiExpenseOther)(t)
  {
  }

  /** Skenderi's position change, read off the cells that collect it. */
  lemma SkenderiSlots(t: Transaction)
    ensures PositionChange(SKENDERI)(t)
      == (SlotAmount(SkenderiIncomeGinger)(t) + SlotAmount(SkenderiIncomeOther)(t)) + SlotAmount(BurimiTransfer)(t)
         - SlotAmount(SkenderiTransfer)(t) - SlotAmount(SkenderiExpenseGinger)(t) - SlotAmount(SkenderiExpenseOther)(t)
  {
  }

  /** One transaction changes Burimi's total by its position change. */
  lemma BurimiStep(c: Cells, t: Transaction)
    ensures BurimiTotalOf(AddTransaction(c, t)) == BurimiTotalOf(c) + PositionChange(BURIMI)(t)
  {
    StepFields(c, t, AddTransaction(c, t));
    BurimiSlots(t);
  }

  /** One transaction changes Skenderi's total by its position change. */
  lemma SkenderiStep(c: Cells, t: Transaction)
    ensures SkenderiTotalOf(AddTransaction(c, t)) == SkenderiTotalOf(c) + PositionChange(SKENDERI)(t)
  {
    StepFields(c, t, AddTransaction(c, t));
    SkenderiSlots(t);
  }

  /** A transfer leaves one party's position and enters the other's. */
  lemma PositionChangesCancel(t: Transaction)
    ensures PositionChange(BURIMI)(t) + PositionChange(SKENDERI)(t) == TrackedNet(t)
  {
  }

  /** Burimi's total is the sum of the position changes of the month's transactions. */
  lemma BurimiTotalMeaning(ts: seq<Transaction>)
    ensures BurimiTotalOf(MonthCells(ts)) == SumOf(ts, PositionChange(BURIMI))
  {
    forall c, t
      ensures BurimiTotalOf(AddTransaction(c, t)) == BurimiTotalOf(c) + PositionChange(BURIMI)(t)
    {
      BurimiStep(c, t);
    }
    MonthCellsFold(ts, BurimiTotalOf, PositionChange(BURIMI));
  }

  /** Skenderi's total is the sum of the position changes of the month's transactions. */
  lemma SkenderiTotalMeaning(ts: seq<Transaction>)
    ensures SkenderiTotalOf(MonthCells(ts)) == SumOf(ts, PositionChange(SKENDERI))
  {
    forall c, t
      ensures SkenderiTotalOf(AddTransaction(c, t)) == SkenderiTotalOf(c) + PositionChange(SKENDERI)(t)
    {
      SkenderiStep(c, t);
    }
    MonthCellsFold(ts, SkenderiTotalOf, PositionChange(SKENDERI));
  }

  /** The net of a month is both parties' income minus both parties'
      expenses: the transfer terms cancel. */
  lemma NetMeaning(ts: seq<Transaction>)
    ensures CellsNet(MonthCells(ts)) == SumOf(ts, TrackedNet)
  {
    BurimiTotalMeaning(ts);
    SkenderiTotalMeaning(ts);
    NetOfTotals(MonthCells(ts), ts);
  }

  lemma NetOfTotals(c: Cells, ts: seq<Transaction>)
    requires BurimiTotalOf(c) == SumOf(ts, PositionChange(BURIMI))
    requires SkenderiTotalOf(c) == SumOf(ts, PositionChange(SKENDERI))
    ensures CellsNet(c) == SumOf(ts, TrackedNet)
  {
    PositionChangesSum(ts);
  }

  lemma PositionChangesSum(ts: seq<Transaction>)
    ensures SumOf(ts, PositionChange(BURIMI)) + SumOf(ts, PositionChange(SKENDERI)) == SumOf(ts, TrackedNet)
  {
    forall t
      ensures PositionChange(BURIMI)(t) + PositionChange(SKENDERI)(t) == TrackedNet(t)
    {
      PositionChangesCancel(t);
    }
    SumOfAdd(ts, PositionChange(BURIMI), PositionChange(SKENDERI), TrackedNet);
  }

  // ---------------------------------------------------------------------------
  // Rows

  /** A month row: label, year and zero-based month of its first transaction,
      the accumulators, and the three totals. */
  datatype Row = Row(
    month: string, year: Year, monthIndex: MonthIndex, cells: Cells,
    burimiTotal: int, skenderiTotal: int, totalNet: int)

  /** A row as `getMonthStats` creates it: every accumulator at zero. */
  function NewRow(d: Date): Row
  {
    Row(Label(d), d.year, d.month - 1, ZERO_CELLS, 0, 0, 0)
  }

  function AddToRow(r: Row, t: Transaction): Row
  {
    r.(cells := AddTransaction(r.cells, t))
  }

  /** The row built from the transactions of one month before its totals are set. */
  function OpenRow(ts: seq<Transaction>): Row
    requires ts != []
  {
    NewRow(ts[0].date).(cells := MonthCells(ts))
  }

  /** The totals pass. */
  function Finish(r: Row): Row
  {
    var b := BurimiTotalOf(r.cells);
    var s := SkenderiTotalOf(r.cells);
    r.(burimiTotal := b, skenderiTotal := s, totalNet := b + s)
  }

  /** The finished row of a month whose transactions, in input order, are `ts`. */
  function MonthRow(ts: seq<Transaction>): Row
    requires ts != []
  {
    Finish(OpenRow(ts))
  }

  function RowNet(r: Row): int
  {
    CellsNet(r.cells)
  }

  function RowTotalNet(r: Row): int
  {
    r.totalNet
  }

  /** Position of a row in (year, month) order. */
  function RowOrder(r: Row): int
  {
    r.year * 12 + r.monthIndex
  }

  predicate RowBefore(a: Row, b: Row)
  {
    a.year < b.year || (a.year == b.year && a.monthIndex < b.monthIndex)
  }

  lemma RowOrderIsYearThenMonth(a: Row, b: Row)
    ensures RowOrder(a) < RowOrder(b) <==> RowBefore(a, b)
  {
  }

  /** The row `getMonthStats` creates for the month of a transaction. */
  function NewRowOf(t: Transaction): Row
  {
    NewRow(t.date)
  }

  lemma OpenRowSingleton(t: Transaction)
    ensures OpenRow([t]) == AddToRow(NewRow(t.date), t)
  {
    assert [t][..0] == [];
    assert [t][0] == t;
    assert MonthCells([t]) == AddTransaction(ZERO_CELLS, t);
    assert OpenRow([t]).cells == AddToRow(NewRow(t.date), t).cells;
  }

  lemma OpenRowSnoc(ts: seq<Transaction>, t: Transaction)
    requires ts != []
    ensures OpenRow(ts + [t]) == AddToRow(OpenRow(ts), t)
  {
    assert (ts + [t])[..|ts|] == ts;
  }

  /** The row the group-by loop accumulates for a month is the month's row. */
  lemma {:induction false} OpenRowIsAccumulate(ts: seq<Transaction>)
    requires ts != []
    ensures Accumulate(ts, NewRowOf, AddToRow) == OpenRow(ts)
    decreases |ts|
  {
    if |ts| == 1 {
      assert ts == [ts[0]];
      OpenRowSingleton(ts[0]);
    } else {
      var init := ts[..|ts| - 1];
      assert ts == init + [ts[|ts| - 1]];
      OpenRowIsAccumulate(init);
      OpenRowSnoc(init, ts[|ts| - 1]);
    }
  }

  // ---------------------------------------------------------------------------
  // The report rows

  /** The totals pass over every row. */
  method FinishAll(open: seq<Row>) returns (finished: seq<Row>)
    ensures |finished| == |open|
    ensures forall m :: 0 <= m < |open| ==> finished[m] == Finish(open[m])
  {
    finished := [];
    for k := 0 to |open|
      invariant |finished| == k
      invariant forall m :: 0 <= m < k ==> finished[m] == Finish(open[m])
    {
      finished := finished + [Finish(open[k])];
    }
  }

  /** `r` is the finished row of the transactions carrying its label. */
  ghost predicate IsMonthRow(txns: seq<Transaction>, r: Row)
  {
    Filter(txns, HasKey(LabelKey, r.month)) != [] && r == MonthRow(Filter(txns, HasKey(LabelKey, r.month)))
  }

  ghost predicate RowsAreMonths(txns: seq<Transaction>, rows: seq<Row>)
  {
    forall i :: 0 <= i < |rows| ==> IsMonthRow(txns, rows[i])
  }

  /** Some row carries the label `key`. */
  ghost predicate HasRow(rows: seq<Row>, key: string)
  {
    exists i :: 0 <= i < |rows| && rows[i].month == key
  }

  /** Every transaction's label has a row. */
  ghost predicate RowsCover(txns: seq<Transaction>, rows: seq<Row>)
  {
    forall j :: 0 <= j < |txns| ==> HasRow(rows, Label(txns[j].date))
  }

  /** No label has two rows. */
  ghost predicate LabelsDistinct(rows: seq<Row>)
  {
    forall i, j :: 0 <= i < |rows| && 0 <= j < |rows| && i != j ==> rows[i].month != rows[j].month
  }

  /** A month row carries the label of its own year and month. */
  lemma MonthRowLabel(txns: seq<Transaction>, r: Row)
    requires IsMonthRow(txns, r)
    ensures r.month == MonthLabel(r.year, r.monthIndex)
  {
  }

  /** Rows with distinct labels have distinct (year, month) positions. */
  lemma DistinctOrders(txns: seq<Transaction>, rows: seq<Row>)
    requires RowsAreMonths(txns, rows) && LabelsDistinct(rows)
    ensures forall p, q :: 0 <= p < q < |rows| ==> RowOrder(rows[p]) != RowOrder(rows[q])
  {
    forall p, q | 0 <= p < q < |rows|
      ensures RowOrder(rows[p]) != RowOrder(rows[q])
    {
      MonthRowLabel(txns, rows[p]);
      MonthRowLabel(txns, rows[q]);
      OrderDeterminesLabel(rows[p], rows[q]);
    }
  }

  lemma OrderDeterminesLabel(a: Row, b: Row)
    requires a.month == MonthLabel(a.year, a.monthIndex) && b.month == MonthLabel(b.year, b.monthIndex)
    requires a.month != b.month
    ensures RowOrder(a) != RowOrder(b)
  {
    if a.year == b.year {
      assert a.monthIndex != b.monthIndex;
    }
  }

  /** Row `m` of the loop is the month row of its key, and its label is that key. */
  lemma FinishedRow(txns: seq<Transaction>, keys: seq<string>, index: map<string, nat>,
                    open: seq<Row>, finished: seq<Row>, m: nat)
    requires Bucketed(txns, LabelKey, NewRowOf, AddToRow, keys, index, open)
    requires |finished| == |open| && m < |open| && finished[m] == Finish(open[m])
    ensures finished[m].month == keys[m] && IsMonthRow(txns, finished[m])
  {
    var f := Filter(txns, HasKey(LabelKey, keys[m]));
    assert f != [] && open[m] == Accumulate(f, NewRowOf, AddToRow);
    OpenRowIsAccumulate(f);
    assert HasKey(LabelKey, keys[m])(f[0]);
  }

  lemma FinishedRows(txns: seq<Transaction>, keys: seq<string>, index: map<string, nat>,
                     open: seq<Row>, finished: seq<Row>)
    requires Bucketed(txns, LabelKey, NewRowOf, AddToRow, keys, index, open)
    requires |finished| == |open| && forall m :: 0 <= m < |open| ==> finished[m] == Finish(open[m])
    ensures RowsAreMonths(txns, finished) && RowsCover(txns, finished) && LabelsDistinct(finished)
  {
    forall m | 0 <= m < |open|
      ensures finished[m].month == keys[m] && IsMonthRow(txns, finished[m])
    {
      FinishedRow(txns, keys, index, open, finished, m);
    }
    BucketedKeys(txns, LabelKey, NewRowOf, AddToRow, keys, index, open);
    forall j | 0 <= j < |txns|
      ensures HasRow(finished, Label(txns[j].date))
    {
      var k := index[LabelKey(txns[j])];
      assert k < |keys| && keys[k] == LabelKey(txns[j]);
      assert finished[k].month == keys[k];
      assert finished[k].month == Label(txns[j].date);
    }
    forall p, q | 0 <= p < |finished| && 0 <= q < |finished| && p != q
      ensures finished[p].month != finished[q].month
    {
      if p < q {
        assert keys[p] != keys[q];
      } else {
        assert keys[q] != keys[p];
      }
    }
  }

  /** Sorting keeps the rows, so it keeps the facts that do not depend on order. */
  lemma SortedRowsAreMonths(txns: seq<Transaction>, finished: seq<Row>, rows: seq<Row>)
    requires RowsAreMonths(txns, finished) && multiset(rows) == multiset(finished)
    ensures RowsAreMonths(txns, rows)
  {
    forall i | 0 <= i < |rows|
      ensures IsMonthRow(txns, rows[i])
    {
      assert rows[i] in multiset(finished);
    }
  }

  lemma SortedRowsCover(txns: seq<Transaction>, finished: seq<Row>, rows: seq<Row>)
    requires RowsCover(txns, finished) && multiset(rows) == multiset(finished)
    ensures RowsCover(txns, rows)
  {
    forall j | 0 <= j < |txns|
      ensures HasRow(rows, Label(txns[j].date))
    {
      var k :| 0 <= k < |finished| && finished[k].month == Label(txns[j].date);
      assert finished[k] in multiset(rows);
      var i :| 0 <= i < |rows| && rows[i] == finished[k];
      assert rows[i].month == Label(txns[j].date);
    }
  }

  lemma SortedLabelsDistinct(finished: seq<Row>, rows: seq<Row>)
    requires LabelsDistinct(finished) && multiset(rows) == multiset(finished)
    ensures LabelsDistinct(rows)
  {
    assert NoDuplicates(finished);
    NoDuplicatesPermutation(finished, rows);
    forall i, j | 0 <= i < |rows| && 0 <= j < |rows| && i != j
      ensures rows[i].month != rows[j].month
    {
      assert rows[i] in multiset(finished) && rows[j] in multiset(finished);
      var p :| 0 <= p < |finished| && rows[i] == finished[p];
      var q :| 0 <= q < |finished| && rows[j] == finished[q];
    }
  }

  /** The net of loop row `k` is the tracked net of its transactions. */
  lemma OpenRowNet(txns: seq<Transaction>, keys: seq<string>, index: map<string, nat>, open: seq<Row>, k: nat)
    requires Bucketed(txns, LabelKey, NewRowOf, AddToRow, keys, index, open) && k < |open|
    ensures RowNet(open[k]) == SumOf(Filter(txns, HasKey(LabelKey, keys[k])), TrackedNet)
  {
    var f := Filter(txns, HasKey(LabelKey, keys[k]));
    OpenRowIsAccumulate(f);
    NetMeaning(f);
  }

  lemma OpenRowNets(txns: seq<Transaction>, keys: seq<string>, index: map<string, nat>, open: seq<Row>)
    requires Bucketed(txns, LabelKey, NewRowOf, AddToRow, keys, index, open)
    ensures forall k :: 0 <= k < |open| ==> RowNet(open[k]) == SumOf(Filter(txns, HasKey(LabelKey, keys[k])), TrackedNet)
  {
    forall k | 0 <= k < |open|
      ensures RowNet(open[k]) == SumOf(Filter(txns, HasKey(LabelKey, keys[k])), TrackedNet)
    {
      OpenRowNet(txns, keys, index, open, k);
    }
  }

  /** The rows partition the transactions, so their nets add up to the total. */
  lemma RowsReconcile(txns: seq<Transaction>, keys: seq<string>, index: map<string, nat>,
                      open: seq<Row>, finished: seq<Row>, rows: seq<Row>)
    requires Bucketed(txns, LabelKey, NewRowOf, AddToRow, keys, index, open)
    requires |finished| == |open| && forall m :: 0 <= m < |open| ==> finished[m] == Finish(open[m])
    requires multiset(rows) == multiset(finished)
    ensures SumOf(rows, RowTotalNet) == SumOf(txns, TrackedNet)
  {
    OpenRowNets(txns, keys, index, open);
    BucketedSum(txns, LabelKey, NewRowOf, AddToRow, keys, index, open, RowNet, TrackedNet);
    assert forall m :: 0 <= m < |finished| ==> RowTotalNet(finished[m]) == RowNet(open[m]);
    SumOfPointwise(finished, RowTotalNet, open, RowNet);
    SumOfPermutation(rows, finished, RowTotalNet);
  }

  /** The report's rows: the group-by loop keyed by label, the totals pass and
      the sort by (year, month). */
  method BuildReport(txns: seq<Transaction>) returns (rows: seq<Row>)
    ensures forall i, j :: 0 <= i < j < |rows| ==> RowBefore(rows[i], rows[j])
    ensures RowsAreMonths(txns, rows)
    ensures RowsCover(txns, rows)
    ensures LabelsDistinct(rows)
    // the rows' net totals add up to the tracked income minus expense of all transactions
    ensures SumOf(rows, RowTotalNet) == SumOf(txns, TrackedNet)
  {
    var index: map<string, nat>;
    var open: seq<Row>;
    ghost var keys: seq<string>;
    index, open, keys := BucketBy(txns, LabelKey, NewRowOf, AddToRow);
    var finished := FinishAll(open);
    FinishedRows(txns, keys, index, open, finished);
    rows := SortBy(finished, RowOrder);
    SortedRowsAreMonths(txns, finished, rows);
    SortedRowsCover(txns, finished, rows);
    SortedLabelsDistinct(finished, rows);
    DistinctOrders(txns, finished);
    SortByDistinctKeys(finished, RowOrder);
    RowsReconcile(txns, keys, index, open, finished, rows);
    forall i, j | 0 <= i < j < |rows|
      ensures RowBefore(rows[i], rows[j])
    {
      RowOrderIsYearThenMonth(rows[i], rows[j]);
    }
  }

  // ---------------------------------------------------------------------------
  // The footer: a column-wise reduce over the rows

  /** The footer's accumulators: the eleven cells, the two party totals and the grand total. */
  datatype Footer = Footer(cells: Cells, bTot: int, sTot: int, grand: int)

  const ZERO_FOOTER: Footer := Footer(ZERO_CELLS, 0, 0, 0)

  /** Component-wise sum of two sets of accumulators. */
  function AddCells(a: Cells, b: Cells): (r: Cells)
    ensures forall s :: Get(r, s) == Get(a, s) + Get(b, s)
    ensures r.pos == a.pos + b.pos
  {
    Cells(a.bIncomeGinger + b.bIncomeGinger, a.bExpenseGinger + b.bExpenseGinger,
          a.bTransfer + b.bTransfer, a.bIncomeOther + b.bIncomeOther, a.bExpenseOther + b.bExpenseOther,
          a.sIncomeGinger + b.sIncomeGinger, a.sExpenseGinger + b.sExpenseGinger,
          a.sTransfer + b.sTransfer, a.sIncomeOther + b.sIncomeOther, a.sExpenseOther + b.sExpenseOther,
          a.pos + b.pos)
  }

  /** One step of the reduce. */
  function FooterStep(acc: Footer, r: Row): Footer
  {
    Footer(AddCells(acc.cells, r.cells), acc.bTot + r.burimiTotal, acc.sTot + r.skenderiTotal, acc.grand + r.totalNet)
  }

  /** `rows.reduce(step, zeros)`: a left fold from the first row. */
  function FooterOf(rows: seq<Row>): Footer
    decreases |rows|
  {
    if rows == [] then ZERO_FOOTER else FooterStep(FooterOf(rows[..|rows| - 1]), rows[|rows| - 1])
  }

  function RowCell(s: Slot): Row -> int
  {
    (r: Row) => Get(r.cells, s)
  }

  function RowPos(r: Row): int
  {
    r.cells.pos
  }

  function RowBurimiTotal(r: Row): int
  {
    r.burimiTotal
  }

  function RowSkenderiTotal(r: Row): int
  {
    r.skenderiTotal
  }

  /** A row whose totals pass has run. */
  predicate IsFinished(r: Row)
  {
    r.totalNet == r.burimiTotal + r.skenderiTotal
  }

  /** Every footer cell is the sum of that column over the rows. */
  lemma {:induction false} FooterCells(rows: seq<Row>)
    ensures forall s :: Get(FooterOf(rows).cells, s) == SumOf(rows, RowCell(s))
    ensures FooterOf(rows).cells.pos == SumOf(rows, RowPos)
    decreases |rows|
  {
    if rows != [] {
      var init := rows[..|rows| - 1];
      var last := rows[|rows| - 1];
      assert rows == init + [last];
      FooterCells(init);
      forall s
        ensures Get(FooterOf(rows).cells, s) == SumOf(rows, RowCell(s))
      {
        SumOfAppend(init, [last], RowCell(s));
      }
      SumOfAppend(init, [last], RowPos);
    }
  }

  /** The footer's party and grand totals are the column sums of the rows' totals. */
  lemma {:induction false} FooterTotals(rows: seq<Row>)
    ensures FooterOf(rows).bTot == SumOf(rows, RowBurimiTotal)
    ensures FooterOf(rows).sTot == SumOf(rows, RowSkenderiTotal)
    ensures FooterOf(rows).grand == SumOf(rows, RowTotalNet)
    decreases |rows|
  {
    if rows != [] {
      var init := rows[..|rows| - 1];
      var last := rows[|rows| - 1];
      assert rows == init + [last];
      FooterTotals(init);
      SumOfAppend(init, [last], RowBurimiTotal);
      SumOfAppend(init, [last], RowSkenderiTotal);
      SumOfAppend(init, [last], RowTotalNet);
    }
  }

  /** Over finished rows the footer's grand total is the sum of its two party totals. */
  lemma {:induction false} FooterGrand(rows: seq<Row>)
    requires forall i :: 0 <= i < |rows| ==> IsFinished(rows[i])
    ensures FooterOf(rows).grand == FooterOf(rows).bTot + FooterOf(rows).sTot
    decreases |rows|
  {
    if rows != [] {
      FooterGrand(rows[..|rows| - 1]);
      assert IsFinished(rows[|rows| - 1]);
    }
  }

  /** The report's rows are finished, so its footer's grand total is `b_tot + s_tot`. */
  lemma ReportFooterGrand(txns: seq<Transaction>, rows: seq<Row>)
    requires RowsAreMonths(txns, rows)
    ensures FooterOf(rows).grand == FooterOf(rows).bTot + FooterOf(rows).sTot
  {
    forall i | 0 <= i < |rows|
      ensures IsFinished(rows[i])
    {
      assert IsMonthRow(txns, rows[i]);
    }
    FooterGrand(rows);
  }

  // ---------------------------------------------------------------------------
  // Per-year tables

  /** The rows of one year, in the order they were pushed. */
  datatype YearGroup = YearGroup(year: Year, rows: seq<Row>)

  function RowYear(r: Row): int
  {
    r.year
  }

  /** `yearMap.set(row.year, [])`. */
  function EmptyGroup(r: Row): YearGroup
  {
    YearGroup(r.year, [])
  }

  /** `yearMap.get(row.year)!.push(row)`. */
  function Push(g: YearGroup, r: Row): YearGroup
  {
    g.(rows := g.rows + [r])
  }

  function DescendingYear(g: YearGroup): int
  {
    -(g.year as int)
  }

  /** Pushing the rows of one year, in order, onto an empty group collects them all. */
  lemma {:induction false} PushAll(rs: seq<Row>)
    requires rs != []
    ensures Accumulate(rs, EmptyGroup, Push) == YearGroup(rs[0].year, rs)
    decreases |rs|
  {
    if |rs| > 1 {
      var init := rs[..|rs| - 1];
      assert rs == init + [rs[|rs| - 1]];
      PushAll(init);
    }
  }

  /** A group of the per-year table: it holds exactly the rows of its year, in their order. */
  ghost predicate IsYearGroup(rows: seq<Row>, g: YearGroup)
  {
    g.rows == Filter(rows, HasKey(RowYear, g.year)) && g.rows != []
  }

  /** Group `m` of the loop is the group of its key. */
  lemma LoopGroup(rows: seq<Row>, keys: seq<int>, index: map<int, nat>, open: seq<YearGroup>, m: nat)
    requires Bucketed(rows, RowYear, EmptyGroup, Push, keys, index, open) && m < |open|
    ensures open[m].year == keys[m] && IsYearGroup(rows, open[m])
  {
    var f := Filter(rows, HasKey(RowYear, keys[m]));
    PushAll(f);
    assert HasKey(RowYear, keys[m])(f[0]);
  }

  ghost predicate GroupsAreYears(rows: seq<Row>, groups: seq<YearGroup>)
  {
    forall i :: 0 <= i < |groups| ==> IsYearGroup(rows, groups[i])
  }

  /** Some group is the group of `year`. */
  ghost predicate HasGroup(groups: seq<YearGroup>, year: int)
  {
    exists i :: 0 <= i < |groups| && groups[i].year == year
  }

  /** Every row's year has a group. */
  ghost predicate GroupsCover(rows: seq<Row>, groups: seq<YearGroup>)
  {
    forall j :: 0 <= j < |rows| ==> HasGroup(groups, rows[j].year)
  }

  /** What the loop leaves: the groups of distinct years, covering every row. */
  lemma LoopGroups(rows: seq<Row>, keys: seq<int>, index: map<int, nat>, open: seq<YearGroup>)
    requires Bucketed(rows, RowYear, EmptyGroup, Push, keys, index, open)
    ensures GroupsAreYears(rows, open) && GroupsCover(rows, open)
    ensures forall p, q :: 0 <= p < q < |open| ==> DescendingYear(open[p]) != DescendingYear(open[q])
  {
    forall m | 0 <= m < |open|
      ensures open[m].year == keys[m] && IsYearGroup(rows, open[m])
    {
      LoopGroup(rows, keys, index, open, m);
    }
    BucketedKeys(rows, RowYear, EmptyGroup, Push, keys, index, open);
    forall j | 0 <= j < |rows|
      ensures HasGroup(open, rows[j].year)
    {
      var k := index[RowYear(rows[j])];
      assert k < |open| && keys[k] == RowYear(rows[j]);
      assert open[k].year == rows[j].year;
    }
  }

  /** Sorting the groups keeps them. */
  lemma SortedGroups(rows: seq<Row>, open: seq<YearGroup>, groups: seq<YearGroup>)
    requires GroupsAreYears(rows, open) && GroupsCover(rows, open)
    requires multiset(groups) == multiset(open)
    ensures GroupsAreYears(rows, groups) && GroupsCover(rows, groups)
  {
    forall i | 0 <= i < |groups|
      ensures IsYearGroup(rows, groups[i])
    {
      assert groups[i] in multiset(open);
    }
    forall j | 0 <= j < |rows|
      ensures HasGroup(groups, rows[j].year)
    {
      var k :| 0 <= k < |open| && open[k].year == rows[j].year;
      assert open[k] in multiset(groups);
      var i :| 0 <= i < |groups| && groups[i] == open[k];
      assert groups[i].year == rows[j].year;
    }
  }

  /** `dataByYear`: the rows pushed into one group per year, the groups sorted by year descending. */
  method GroupByYear(rows: seq<Row>) returns (groups: seq<YearGroup>)
    ensures forall i, j :: 0 <= i < j < |groups| ==> groups[i].year > groups[j].year
    ensures GroupsAreYears(rows, groups)
    ensures GroupsCover(rows, groups)
  {
    var index: map<int, nat>;
    var open: seq<YearGroup>;
    ghost var keys: seq<int>;
    index, open, keys := BucketBy(rows, RowYear, EmptyGroup, Push);
    LoopGroups(rows, keys, index, open);
    groups := SortBy(open, DescendingYear);
    SortByDistinctKeys(open, DescendingYear);
    SortedGroups(rows, open, groups);
  }

  /** Every row is in exactly the group of its own year. */
  lemma GroupMembership(rows: seq<Row>, g: YearGroup, j: nat)
    requires IsYearGroup(rows, g) && j < |rows|
    ensures rows[j] in g.rows <==> rows[j].year == g.year
  {
    FilterMembers(rows, HasKey(RowYear, g.year));
    if rows[j].year == g.year {
      assert HasKey(RowYear, g.year)(rows[j]);
    }
    if rows[j] in g.rows {
      var k :| 0 <= k < |g.rows| && g.rows[k] == rows[j];
      assert HasKey(RowYear, g.year)(g.rows[k]);
    }
  }

  /** Rows that ascend by (year, month) still ascend inside each group. */
  lemma GroupKeepsMonthOrder(rows: seq<Row>, g: YearGroup)
    requires IsYearGroup(rows, g)
    requires forall i, j :: 0 <= i < j < |rows| ==> RowOrder(rows[i]) < RowOrder(rows[j])
    ensures forall i, j :: 0 <= i < j < |g.rows| ==> g.rows[i].monthIndex < g.rows[j].monthIndex
  {
    FilterKeepsAscending(rows, RowOrder, HasKey(RowYear, g.year));
    forall i, j | 0 <= i < j < |g.rows|
      ensures g.rows[i].monthIndex < g.rows[j].monthIndex
    {
      assert HasKey(RowYear, g.year)(g.rows[i]) && HasKey(RowYear, g.year)(g.rows[j]);
      assert g.rows[i].year == g.rows[j].year;
      assert RowOrder(g.rows[i]) < RowOrder(g.rows[j]);
    }
  }
}
