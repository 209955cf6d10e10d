/** The visual dashboard's aggregates: the metric totals, the two-party
    balance sheet, the running cash-flow series, the expense ranking by
    sub-category and the month-by-month income/expense comparison. */
module Dashboard {
  import opened Common
  import opened Text
  import opened Ledger
  import opened Grouping

  function Amount(t: Transaction): int
  {
    t.amount
  }

  function IsIncome(t: Transaction): bool
  {
    t.category == Income
  }

  function IsExpense(t: Transaction): bool
  {
    t.category == Expense
  }

  /** A filter keeps, then sums, the transactions of one category. */
  lemma FilteredTotal(txns: seq<Transaction>, p: Transaction -> bool, g: Transaction -> int)
    requires forall t :: g(t) == (if p(t) then t.amount else 0)
    ensures SumOf(Filter(txns, p), Amount) == SumOf(txns, g)
  {
    SumOfFilter(txns, p, Amount);
    SumOfPointwise(txns, Where(p, Amount), txns, g);
  }

  // ---------------------------------------------------------------------------
  // Metrics

  datatype Metrics = Metrics(totalIncome: int, totalExpense: int, netBalance: int)

  /** The income and expense totals as filter-then-reduce, and their difference. */
  function MetricsOf(txns: seq<Transaction>): Metrics
  {
    var totalIncome := SumOf(Filter(txns, IsIncome), Amount);
    var totalExpense := SumOf(Filter(txns, IsExpense), Amount);
    Metrics(totalIncome, totalExpense, totalIncome - totalExpense)
  }

  /** The metric totals are the income and expense totals of the ledger. */
  lemma MetricsMeaning(txns: seq<Transaction>)
    ensures MetricsOf(txns).totalIncome == TotalIncome(txns)
    ensures MetricsOf(txns).totalExpense == TotalExpense(txns)
    ensures MetricsOf(txns).netBalance == TotalIncome(txns) - TotalExpense(txns)
  {
    FilteredTotal(txns, IsIncome, IncomeAmount);
    FilteredTotal(txns, IsExpense, ExpenseAmount);
  }

  // ---------------------------------------------------------------------------
  // The two-party balance sheet

  /** One party's column of the balance sheet. */
  datatype Party = Party(name: string, income: int, expenses: int, transfersOut: int,
                         transfersIn: int, balance: int, transactions: nat)

  function NewParty(name: string): Party
  {
    Party(name, 0, 0, 0, 0, 0, 0)
  }

  /** One `forEach` step on the record of the party `p.name`: a transaction
      of that name is counted, and its amount goes to income, expenses or
      transfers out, moving the balance with it. */
  function Tally(p: Party, t: Transaction): Party
  {
    if t.name != p.name then p
    else
      var q := p.(transactions := p.transactions + 1);
      if t.category == Income then q.(income := q.income + t.amount, balance := q.balance + t.amount)
      else if t.category == Expense then q.(expenses := q.expenses + t.amount, balance := q.balance - t.amount)
      else if t.category == Transfer then q.(transfersOut := q.transfersOut + t.amount, balance := q.balance - t.amount)
      else q
  }

  /** The record of `name` after the loop has seen `ts`. */
  function TallyAll(ts: seq<Transaction>, name: string): Party
    decreases |ts|
  {
    if ts == [] then NewParty(name) else Tally(TallyAll(ts[..|ts| - 1], name), ts[|ts| - 1])
  }

  function PartyIncome(name: string): Transaction -> int
  {
    (t: Transaction) => if t.name == name && t.category == Income then t.amount else 0
  }

  function PartyExpense(name: string): Transaction -> int
  {
    (t: Transaction) => if t.name == name && t.category == Expense then t.amount else 0
  }

  function PartyTransfer(name: string): Transaction -> int
  {
    (t: Transaction) => if t.name == name && t.category == Transfer then t.amount else 0
  }

  function IsNamed(name: string): Transaction -> bool
  {
    (t: Transaction) => t.name == name
  }

  /** What a party's record holds after the loop, before transfers in are added. */
  ghost predicate Tallied(p: Party, ts: seq<Transaction>, name: string)
  {
    p.name == name
    && p.income == SumOf(ts, PartyIncome(name))
    && p.expenses == SumOf(ts, PartyExpense(name))
    && p.transfersOut == SumOf(ts, PartyTransfer(name))
    && p.transfersIn == 0
    && p.balance == p.income - p.expenses - p.transfersOut
    && p.transactions == Count(ts, IsNamed(name))
  }

  lemma TallyStep(p: Party, ts: seq<Transaction>, t: Transaction, name: string)
    requires Tallied(p, ts, name)
    ensures Tallied(Tally(p, t), ts + [t], name)
  {
    SumOfAppend(ts, [t], PartyIncome(name));
    SumOfAppend(ts, [t], PartyExpense(name));
    SumOfAppend(ts, [t], PartyTransfer(name));
    SumOfSingleton(t, PartyIncome(name));
    SumOfSingleton(t, PartyExpense(name));
    SumOfSingleton(t, PartyTransfer(name));
    FilterSnoc(ts, t, IsNamed(name));
  }

  /** The party's record holds the sums of its own transactions and their number. */
  lemma {:induction false} TallyAllMeaning(ts: seq<Transaction>, name: string)
    ensures Tallied(TallyAll(ts, name), ts, name)
    decreases |ts|
  {
    if ts != [] {
      var init := ts[..|ts| - 1];
      assert ts == init + [ts[|ts| - 1]];
      TallyAllMeaning(init, name);
      TallyStep(TallyAll(init, name), init, ts[|ts| - 1], name);
    }
  }

  /** A party's own income minus expenses. */
  function PartyNet(name: string): Transaction -> int
  {
    (t: Transaction) =>
      if t.name == name then (if t.category == Income then t.amount else if t.category == Expense then -t.amount else 0)
      else 0
  }

  lemma PartyNetSplit(ts: seq<Transaction>, name: string)
    ensures SumOf(ts, PartyIncome(name)) - SumOf(ts, PartyExpense(name)) == SumOf(ts, PartyNet(name))
  {
    forall t
      ensures PartyIncome(name)(t) + Negated(PartyExpense(name))(t) == PartyNet(name)(t)
    {
    }
    SumOfNegated(ts, PartyExpense(name));
    SumOfAdd(ts, PartyIncome(name), Negated(PartyExpense(name)), PartyNet(name));
  }

  lemma TrackedNetSplit(ts: seq<Transaction>)
    ensures SumOf(ts, PartyNet(BURIMI)) + SumOf(ts, PartyNet(SKENDERI)) == SumOf(ts, TrackedNet)
  {
    forall t
      ensures PartyNet(BURIMI)(t) + PartyNet(SKENDERI)(t) == TrackedNet(t)
    {
    }
    SumOfAdd(ts, PartyNet(BURIMI), PartyNet(SKENDERI), TrackedNet);
  }

  /** The two balances after the transfers-in step. */
  lemma BalancesNet(b: Party, s: Party, ts: seq<Transaction>)
    requires Tallied(b, ts, BURIMI) && Tallied(s, ts, SKENDERI)
    ensures (b.balance + s.transfersOut) + (s.balance + b.transfersOut) == SumOf(ts, TrackedNet)
  {
    PartyNetSplit(ts, BURIMI);
    PartyNetSplit(ts, SKENDERI);
    TrackedNetSplit(ts);
  }

  /** `individualBalances`: one pass over the transactions updating the two
      party records, then each party's transfers in set to the other's
      transfers out and added to its balance. */
  method IndividualBalances(txns: seq<Transaction>) returns (burim: Party, skender: Party)
    ensures burim.name == BURIMI && skender.name == SKENDERI
    ensures burim.income == SumOf(txns, PartyIncome(BURIMI)) && skender.income == SumOf(txns, PartyIncome(SKENDERI))
    ensures burim.expenses == SumOf(txns, PartyExpense(BURIMI)) && skender.expenses == SumOf(txns, PartyExpense(SKENDERI))
    ensures burim.transfersOut == SumOf(txns, PartyTransfer(BURIMI))
    ensures skender.transfersOut == SumOf(txns, PartyTransfer(SKENDERI))
    ensures burim.transactions == Count(txns, IsNamed(BURIMI)) && skender.transactions == Count(txns, IsNamed(SKENDERI))
    // each party receives what the other sends
    ensures burim.transfersIn == skender.transfersOut && skender.transfersIn == burim.transfersOut
    ensures burim.balance == burim.income - burim.expenses - burim.transfersOut + burim.transfersIn
    ensures skender.balance == skender.income - skender.expenses - skender.transfersOut + skender.transfersIn
    // transfers cancel: together the balances are the tracked income minus expense
    ensures burim.balance + skender.balance == SumOf(txns, TrackedNet)
  {
    burim := NewParty(BURIMI);
    skender := NewParty(SKENDERI);
    for i := 0 to |txns|
      invariant burim == TallyAll(txns[..i], BURIMI)
      invariant skender == TallyAll(txns[..i], SKENDERI)
    {
      assert txns[..i + 1][..i] == txns[..i];
      burim := Tally(burim, txns[i]);
      skender := Tally(skender, txns[i]);
    }
    assert txns[..|txns|] == txns;
    TallyAllMeaning(txns, BURIMI);
    TallyAllMeaning(txns, SKENDERI);
    BalancesNet(burim, skender, txns);
    burim := burim.(transfersIn := skender.transfersOut, balance := burim.balance + skender.transfersOut);
    skender := skender.(transfersIn := burim.transfersOut, balance := skender.balance + burim.transfersOut);
  }

  // ---------------------------------------------------------------------------
  // The cash-flow series

  /** How a transaction moves the running balance: income adds, expenses subtract. */
  function CashDelta(t: Transaction): int
  {
    if t.category == Income then t.amount else if t.category == Expense then -t.amount else 0
  }

  function DateOrder(t: Transaction): int
  {
    DateKey(t.date)
  }

  /** A point of the series: a date and the balance after its last transaction. */
  datatype Point = Point(date: Date, balance: int)

  /** The balance contribution of a transaction on or before `d`. */
  function UpTo(d: Date): Transaction -> int
  {
    (t: Transaction) => if DateKey(t.date) <= DateKey(d) then CashDelta(t) else 0
  }

  ghost predicate HasTxnOn(txns: seq<Transaction>, d: Date)
  {
    exists j :: 0 <= j < |txns| && txns[j].date == d
  }

  ghost predicate HasPoint(points: seq<Point>, d: Date)
  {
    exists k :: 0 <= k < |points| && points[k].date == d
  }

  /** The series of `txns`: one point per distinct date, in date order, each
      holding the income minus expense of every transaction up to that date. */
  ghost predicate IsCashFlow(txns: seq<Transaction>, points: seq<Point>)
  {
    (forall i, j :: 0 <= i < j < |points| ==> DateKey(points[i].date) < DateKey(points[j].date))
    && (forall k :: 0 <= k < |points| ==> HasTxnOn(txns, points[k].date))
    && (forall j :: 0 <= j < |txns| ==> HasPoint(points, txns[j].date))
    && (forall k :: 0 <= k < |points| ==> points[k].balance == SumOf(txns, UpTo(points[k].date)))
  }

  /** The map `index` gives each date's point and each point's position. */
  ghost predicate IndexMatches(index: map<Date, nat>, points: seq<Point>)
  {
    (forall d :: d in index ==> index[d] < |points| && points[index[d]].date == d)
    && (forall k :: 0 <= k < |points| ==> points[k].date in index && index[points[k].date] == k)
  }

  ghost predicate DatesAscending(points: seq<Point>)
  {
    forall i, j :: 0 <= i < j < |points| ==> DateKey(points[i].date) < DateKey(points[j].date)
  }

  ghost predicate PointsFrom(done: seq<Transaction>, points: seq<Point>)
  {
    forall k :: 0 <= k < |points| ==> HasTxnOn(done, points[k].date)
  }

  ghost predicate Balances(done: seq<Transaction>, points: seq<Point>)
  {
    forall k :: 0 <= k < |points| ==> points[k].balance == SumOf(done, UpTo(points[k].date))
  }

  ghost predicate DatesIndexed(done: seq<Transaction>, index: map<Date, nat>)
  {
    forall j :: 0 <= j < |done| ==> done[j].date in index
  }

  ghost predicate LastPointLast(done: seq<Transaction>, points: seq<Point>)
  {
    (done == [] <==> points == [])
    && (done != [] ==> points[|points| - 1].date == done[|done| - 1].date)
  }

  /** The loop state after the sorted transactions `done`, with `running`
      the balance so far. */
  ghost predicate CashState(done: seq<Transaction>, index: map<Date, nat>, points: seq<Point>, running: int)
  {
    running == SumOf(done, CashDelta)
    && IndexMatches(index, points)
    && DatesAscending(points)
    && PointsFrom(done, points)
    && Balances(done, points)
    && DatesIndexed(done, index)
    && LastPointLast(done, points)
  }

  lemma {:induction false} AllUpTo(s: seq<Transaction>, d: Date)
    requires forall j :: 0 <= j < |s| ==> DateKey(s[j].date) <= DateKey(d)
    ensures SumOf(s, UpTo(d)) == SumOf(s, CashDelta)
    decreases |s|
  {
    if s != [] {
      AllUpTo(s[1..], d);
    }
  }

  lemma UpToSnoc(s: seq<Transaction>, t: Transaction, d: Date)
    ensures SumOf(s + [t], UpTo(d)) == SumOf(s, UpTo(d)) + UpTo(d)(t)
  {
    SumOfAppend(s, [t], UpTo(d));
    SumOfSingleton(t, UpTo(d));
  }

  lemma RunningSnoc(s: seq<Transaction>, t: Transaction)
    ensures SumOf(s + [t], CashDelta) == SumOf(s, CashDelta) + CashDelta(t)
  {
    SumOfAppend(s, [t], CashDelta);
    SumOfSingleton(t, CashDelta);
  }

  lemma {:induction false} SnocBounded(s: seq<Transaction>, t: Transaction)
    requires forall j :: 0 <= j < |s| ==> DateKey(s[j].date) <= DateKey(t.date)
    ensures forall j :: 0 <= j < |s + [t]| ==> DateKey((s + [t])[j].date) <= DateKey(t.date)
  {
    forall j | 0 <= j < |s + [t]|
      ensures DateKey((s + [t])[j].date) <= DateKey(t.date)
    {
      if j < |s| {
        assert (s + [t])[j] == s[j];
      }
    }
  }

  lemma CashSnocOrigins(done: seq<Transaction>, t: Transaction, points: seq<Point>, next: seq<Point>)
    requires PointsFrom(done, points)
    requires |next| >= |points|
    requires forall k :: 0 <= k < |next| ==> (k < |points| && next[k].date == points[k].date) || next[k].date == t.date
    ensures PointsFrom(done + [t], next)
  {
    forall k | 0 <= k < |next|
      ensures HasTxnOn(done + [t], next[k].date)
    {
      if next[k].date == t.date {
        assert (done + [t])[|done|] == t;
      } else {
        var j :| 0 <= j < |done| && done[j].date == points[k].date;
        assert (done + [t])[j] == done[j];
      }
    }
  }

  lemma CashSnocCovered(done: seq<Transaction>, t: Transaction, index: map<Date, nat>)
    requires DatesIndexed(done, index)
    requires t.date in index
    ensures DatesIndexed(done + [t], index)
  {
    forall j | 0 <= j < |done + [t]|
      ensures (done + [t])[j].date in index
    {
      if j < |done| {
        assert (done + [t])[j] == done[j];
      }
    }
  }

  /** A date already in the map belongs to the last point, since the input is sorted. */
  lemma {:induction false} ExistingIsLast(done: seq<Transaction>, t: Transaction, index: map<Date, nat>, points: seq<Point>)
    requires IndexMatches(index, points) && DatesAscending(points) && LastPointLast(done, points)
    requires forall j :: 0 <= j < |done| ==> DateKey(done[j].date) <= DateKey(t.date)
    requires t.date in index
    ensures index[t.date] == |points| - 1
  {
    var k := index[t.date];
    assert points[k].date == t.date;
    assert done != [];
    assert DateKey(points[|points| - 1].date) <= DateKey(t.date);
  }

  /** A date not in the map is later than every point. */
  lemma {:induction false} NewIsLater(done: seq<Transaction>, t: Transaction, index: map<Date, nat>, points: seq<Point>)
    requires IndexMatches(index, points) && DatesAscending(points) && LastPointLast(done, points)
    requires forall j :: 0 <= j < |done| ==> DateKey(done[j].date) <= DateKey(t.date)
    requires t.date !in index
    ensures forall k :: 0 <= k < |points| ==> DateKey(points[k].date) < DateKey(t.date)
  {
    if points != [] {
      var last := |points| - 1;
      assert points[last].date in index;
      DateKeyOrdersDates(points[last].date, t.date);
      assert DateKey(points[last].date) < DateKey(t.date);
      forall k | 0 <= k < |points|
        ensures DateKey(points[k].date) < DateKey(t.date)
      {
        if k < last {
          assert DateKey(points[k].date) < DateKey(points[last].date);
        }
      }
    }
  }

  /** After `t`, the balances of the points before `t`'s date are unchanged,
      and the point on `t`'s date holds the running balance. */
  lemma {:induction false} BalancesSnoc(done: seq<Transaction>, t: Transaction, points: seq<Point>, next: seq<Point>, running: int)
    requires Balances(done, points)
    requires running == SumOf(done + [t], CashDelta)
    requires forall j :: 0 <= j < |done| ==> DateKey(done[j].date) <= DateKey(t.date)
    requires |next| >= |points|
    requires forall k :: 0 <= k < |next| ==>
      (k < |points| && next[k] == points[k] && DateKey(points[k].date) < DateKey(t.date))
      || next[k] == Point(t.date, running)
    ensures Balances(done + [t], next)
  {
    forall m | 0 <= m < |next|
      ensures next[m].balance == SumOf(done + [t], UpTo(next[m].date))
    {
      UpToSnoc(done, t, next[m].date);
      if next[m] == Point(t.date, running) {
        SnocBounded(done, t);
        AllUpTo(done + [t], t.date);
      }
    }
  }

  lemma BalancesOverwrite(done: seq<Transaction>, t: Transaction, points: seq<Point>, running: int)
    requires Balances(done, points) && DatesAscending(points)
    requires points != [] && points[|points| - 1].date == t.date
    requires running == SumOf(done + [t], CashDelta)
    requires forall j :: 0 <= j < |done| ==> DateKey(done[j].date) <= DateKey(t.date)
    ensures Balances(done + [t], points[|points| - 1 := Point(t.date, running)])
  {
    var last := |points| - 1;
    var next := points[last := Point(t.date, running)];
    assert forall k :: 0 <= k < last ==> DateKey(points[k].date) < DateKey(points[last].date);
    BalancesSnoc(done, t, points, next, running);
  }

  lemma BalancesAppend(done: seq<Transaction>, t: Transaction, points: seq<Point>, running: int)
    requires Balances(done, points)
    requires forall k :: 0 <= k < |points| ==> DateKey(points[k].date) < DateKey(t.date)
    requires running == SumOf(done + [t], CashDelta)
    requires forall j :: 0 <= j < |done| ==> DateKey(done[j].date) <= DateKey(t.date)
    ensures Balances(done + [t], points + [Point(t.date, running)])
  {
    var next := points + [Point(t.date, running)];
    assert forall k :: 0 <= k < |points| ==> next[k] == points[k];
    BalancesSnoc(done, t, points, next, running);
  }

  /** Overwriting the last point with one of the same date keeps the map, the
      order and the origins of the points. */
  lemma OverwriteKeeps(done: seq<Transaction>, t: Transaction, index: map<Date, nat>, points: seq<Point>, running: int)
    requires IndexMatches(index, points) && DatesAscending(points) && PointsFrom(done, points)
    requires points != [] && points[|points| - 1].date == t.date
    ensures var next := points[|points| - 1 := Point(t.date, running)];
      IndexMatches(index, next) && DatesAscending(next) && PointsFrom(done + [t], next)
  {
    var next := points[|points| - 1 := Point(t.date, running)];
    assert forall k :: 0 <= k < |next| ==> next[k].date == points[k].date;
    CashSnocOrigins(done, t, points, next);
  }

  /** Appending a point on a later, new date keeps the order and the origins. */
  lemma AppendKeeps(done: seq<Transaction>, t: Transaction, points: seq<Point>, running: int)
    requires DatesAscending(points) && PointsFrom(done, points)
    requires forall k :: 0 <= k < |points| ==> DateKey(points[k].date) < DateKey(t.date)
    ensures var next := points + [Point(t.date, running)];
      DatesAscending(next) && PointsFrom(done + [t], next)
  {
    var next := points + [Point(t.date, running)];
    assert forall k :: 0 <= k < |points| ==> next[k] == points[k];
    CashSnocOrigins(done, t, points, next);
  }

  /** A transaction on the date of the last point overwrites that point. */
  lemma CashExisting(done: seq<Transaction>, t: Transaction, index: map<Date, nat>, points: seq<Point>,
                     running: int, next: seq<Point>)
    requires CashState(done, index, points, running)
    requires forall j :: 0 <= j < |done| ==> DateKey(done[j].date) <= DateKey(t.date)
    requires t.date in index
    requires next == points[index[t.date] := Point(t.date, running + CashDelta(t))]
    ensures CashState(done + [t], index, next, running + CashDelta(t))
  {
    ExistingIsLast(done, t, index, points);
    var running' := running + CashDelta(t);
    assert next == points[|points| - 1 := Point(t.date, running')];
    RunningSnoc(done, t);
    BalancesOverwrite(done, t, points, running');
    OverwriteKeeps(done, t, index, points, running');
    CashSnocCovered(done, t, index);
    assert LastPointLast(done + [t], next);
  }

  /** A transaction on a new date appends a point. */
  lemma CashNew(done: seq<Transaction>, t: Transaction, index: map<Date, nat>, points: seq<Point>,
                running: int, index': map<Date, nat>, next: seq<Point>)
    requires CashState(done, index, points, running)
    requires forall j :: 0 <= j < |done| ==> DateKey(done[j].date) <= DateKey(t.date)
    requires t.date !in index
    requires index' == index[t.date := |points|]
    requires next == points + [Point(t.date, running + CashDelta(t))]
    ensures CashState(done + [t], index', next, running + CashDelta(t))
  {
    NewIsLater(done, t, index, points);
    RunningSnoc(done, t);
    BalancesAppend(done, t, points, running + CashDelta(t));
    AppendKeeps(done, t, points, running + CashDelta(t));
    CashSnocCovered(done, t, index');
    NewIndexMatches(t, index, points, running + CashDelta(t));
  }

  lemma NewIndexMatches(t: Transaction, index: map<Date, nat>, points: seq<Point>, running: int)
    requires IndexMatches(index, points)
    requires t.date !in index
    ensures IndexMatches(index[t.date := |points|], points + [Point(t.date, running)])
  {
    var index', next := index[t.date := |points|], points + [Point(t.date, running)];
    forall m | 0 <= m < |next|
      ensures next[m].date in index' && index'[next[m].date] == m
    {
      if m < |points| {
        assert next[m] == points[m];
        assert points[m].date != t.date;
      }
    }
  }

  lemma CashStart()
    ensures CashState([], map[], [], 0)
  {
  }

  /** The sorted prefix before position `i` is no later than the element at
      `i`, and with that element it is the prefix one longer. */
  lemma PrefixBounded(sorted: seq<Transaction>, i: nat, done: seq<Transaction>)
    requires SortedBy(sorted, DateOrder) && i < |sorted| && done == sorted[..i]
    ensures forall j :: 0 <= j < |done| ==> DateKey(done[j].date) <= DateKey(sorted[i].date)
    ensures done + [sorted[i]] == sorted[..i + 1]
  {
    forall j | 0 <= j < |done|
      ensures DateKey(done[j].date) <= DateKey(sorted[i].date)
    {
      assert done[j] == sorted[j];
      assert DateOrder(sorted[j]) <= DateOrder(sorted[i]);
    }
  }

  /** `cashFlowData`: the transactions sorted by date, a running balance, and
      a map from date to point that each transaction overwrites. */
  method CashFlow(txns: seq<Transaction>) returns (points: seq<Point>)
    ensures IsCashFlow(txns, points)
  {
    var sorted := SortBy(txns, DateOrder);
    var index, running;
    index, points, running := CashWalk(sorted);
    CashFlowOfSorted(txns, sorted, index, points, running);
  }

  /** The walk over the date-sorted transactions. */
  method CashWalk(sorted: seq<Transaction>) returns (index: map<Date, nat>, points: seq<Point>, running: int)
    requires SortedBy(sorted, DateOrder)
    ensures CashState(sorted, index, points, running)
  {
    index, points, running := map[], [], 0;
    ghost var done: seq<Transaction> := [];
    CashStart();
    for i := 0 to |sorted|
      invariant done == sorted[..i]
      invariant CashState(done, index, points, running)
    {
      PrefixBounded(sorted, i, done);
      index, points, running := CashStep(done, sorted[i], index, points, running);
      done := done + [sorted[i]];
    }
    assert done == sorted;
  }

  /** One pass of the loop: the running balance moves by the transaction,
      and its date's point is overwritten, or appended when the date is new. */
  method CashStep(ghost done: seq<Transaction>, t: Transaction, index: map<Date, nat>, points: seq<Point>, running: int)
    returns (index': map<Date, nat>, points': seq<Point>, running': int)
    requires CashState(done, index, points, running)
    requires forall j :: 0 <= j < |done| ==> DateKey(done[j].date) <= DateKey(t.date)
    ensures running' == running + CashDelta(t)
    ensures t.date in index ==> index' == index && points' == points[index[t.date] := Point(t.date, running')]
    ensures t.date !in index ==> index' == index[t.date := |points|] && points' == points + [Point(t.date, running')]
    ensures CashState(done + [t], index', points', running')
  {
    running' := running + CashDelta(t);
    if t.date in index {
      index' := index;
      points' := points[index[t.date] := Point(t.date, running')];
      CashExisting(done, t, index, points, running, points');
    } else {
      index' := index[t.date := |points|];
      points' := points + [Point(t.date, running')];
      CashNew(done, t, index, points, running, index', points');
    }
  }

  /** Sorting only reorders, so the series of the sorted input is the series of the input. */
  lemma CashFlowOfSorted(txns: seq<Transaction>, sorted: seq<Transaction>, index: map<Date, nat>,
                         points: seq<Point>, running: int)
    requires multiset(sorted) == multiset(txns)
    requires CashState(sorted, index, points, running)
    ensures IsCashFlow(txns, points)
  {
    forall k | 0 <= k < |points|
      ensures points[k].balance == SumOf(txns, UpTo(points[k].date))
    {
      SumOfPermutation(sorted, txns, UpTo(points[k].date));
    }
    forall k | 0 <= k < |points|
      ensures HasTxnOn(txns, points[k].date)
    {
      var j :| 0 <= j < |sorted| && sorted[j].date == points[k].date;
      assert sorted[j] in multiset(txns);
      var j' :| 0 <= j' < |txns| && txns[j'] == sorted[j];
    }
    forall j | 0 <= j < |txns|
      ensures HasPoint(points, txns[j].date)
    {
      assert txns[j] in multiset(sorted);
      var j' :| 0 <= j' < |sorted| && sorted[j'] == txns[j];
      assert points[index[sorted[j'].date]].date == txns[j].date;
    }
  }

  /** The last point of the series is the net balance, total income minus total expense. */
  lemma LastPointIsNet(txns: seq<Transaction>, points: seq<Point>)
    requires IsCashFlow(txns, points) && txns != []
    ensures points != [] && points[|points| - 1].balance == TotalIncome(txns) - TotalExpense(txns)
  {
    assert HasPoint(points, txns[0].date);
    var last := points[|points| - 1].date;
    forall j | 0 <= j < |txns|
      ensures DateKey(txns[j].date) <= DateKey(last)
    {
      assert HasPoint(points, txns[j].date);
    }
    AllUpTo(txns, last);
    CashDeltaTotal(txns);
  }

  lemma CashDeltaTotal(txns: seq<Transaction>)
    ensures SumOf(txns, CashDelta) == TotalIncome(txns) - TotalExpense(txns)
  {
    forall t
      ensures IncomeAmount(t) + Negated(ExpenseAmount)(t) == CashDelta(t)
    {
      assert Negated(ExpenseAmount)(t) == -ExpenseAmount(t);
    }
    SumOfNegated(txns, ExpenseAmount);
    SumOfAdd(txns, IncomeAmount, Negated(ExpenseAmount), CashDelta);
  }

  // ---------------------------------------------------------------------------
  // Expenses by sub-category (the pie and the top categories)

  /** A pie slice: a sub-category and its expense total. */
  datatype Slice = Slice(name: string, value: int)

  function SubCategoryOf(t: Transaction): string
  {
    t.subCategory
  }

  function NewSlice(t: Transaction): Slice
  {
    Slice(t.subCategory, 0)
  }

  /** `map.set(sub, (map.get(sub) || 0) + amount)`. */
  function AddToSlice(s: Slice, t: Transaction): Slice
  {
    s.(value := s.value + t.amount)
  }

  function SliceValue(s: Slice): int
  {
    s.value
  }

  /** Sorting by this key puts the largest value first. */
  function LargestFirst(s: Slice): int
  {
    -s.value
  }

  /** The expense amount of a transaction in sub-category `name`. */
  function SubExpense(name: string): Transaction -> int
  {
    (t: Transaction) => if t.category == Expense && t.subCategory == name then t.amount else 0
  }

  ghost predicate HasExpenseIn(txns: seq<Transaction>, name: string)
  {
    exists j :: 0 <= j < |txns| && txns[j].category == Expense && txns[j].subCategory == name
  }

  ghost predicate HasSlice(pie: seq<Slice>, name: string)
  {
    exists k :: 0 <= k < |pie| && pie[k].name == name
  }

  /** One slice per expense sub-category, holding its total. */
  ghost predicate SlicesOf(txns: seq<Transaction>, pie: seq<Slice>)
  {
    (forall i, j :: 0 <= i < j < |pie| ==> pie[i].name != pie[j].name)
    && (forall k :: 0 <= k < |pie| ==> HasExpenseIn(txns, pie[k].name))
    && (forall k :: 0 <= k < |pie| ==> pie[k].value == SumOf(txns, SubExpense(pie[k].name)))
    && (forall j :: 0 <= j < |txns| && txns[j].category == Expense ==> HasSlice(pie, txns[j].subCategory))
  }

  /** The accumulated slice of a group of records is their sub-category and amount total. */
  lemma {:induction false} SliceIsSum(ts: seq<Transaction>)
    requires ts != []
    ensures Accumulate(ts, NewSlice, AddToSlice) == Slice(ts[0].subCategory, SumOf(ts, Amount))
    decreases |ts|
  {
    if |ts| == 1 {
      SumOfSingleton(ts[0], Amount);
      assert ts == [ts[0]];
    } else {
      var init, last := ts[..|ts| - 1], ts[|ts| - 1];
      SliceIsSum(init);
      assert ts == init + [last];
      SumOfAppend(init, [last], Amount);
      SumOfSingleton(last, Amount);
    }
  }

  /** Grouping the expenses by sub-category sums `SubExpense`. */
  lemma ExpenseBucket(txns: seq<Transaction>, name: string)
    ensures SumOf(Filter(Filter(txns, IsExpense), HasKey(SubCategoryOf, name)), Amount) == SumOf(txns, SubExpense(name))
  {
    FilterFilter(txns, IsExpense, HasKey(SubCategoryOf, name));
    var p := Both(IsExpense, HasKey(SubCategoryOf, name));
    forall t
      ensures SubExpense(name)(t) == (if p(t) then t.amount else 0)
    {
      assert SubCategoryOf(t) == t.subCategory;
      assert HasKey(SubCategoryOf, name)(t) == (SubCategoryOf(t) == name);
      assert p(t) == (IsExpense(t) && HasKey(SubCategoryOf, name)(t));
    }
    FilteredTotal(txns, p, SubExpense(name));
  }

  /** The expenses of one bucket, and where they come from. */
  lemma BucketSlice(txns: seq<Transaction>, keys: seq<string>, index: map<string, nat>, open: seq<Slice>, k: nat)
    requires Bucketed(Filter(txns, IsExpense), SubCategoryOf, NewSlice, AddToSlice, keys, index, open)
    requires k < |open|
    ensures open[k].name == keys[k]
    ensures open[k].value == SumOf(Filter(Filter(txns, IsExpense), HasKey(SubCategoryOf, keys[k])), Amount)
    ensures open[k].value == SumOf(txns, SubExpense(open[k].name))
    ensures HasExpenseIn(txns, open[k].name)
  {
    var expenses := Filter(txns, IsExpense);
    var f := Filter(expenses, HasKey(SubCategoryOf, keys[k]));
    SliceIsSum(f);
    assert HasKey(SubCategoryOf, keys[k])(f[0]);
    ExpenseBucket(txns, keys[k]);
    FilterMembers(expenses, HasKey(SubCategoryOf, keys[k]));
    FilterMembers(txns, IsExpense);
    assert f[0] in expenses;
    var i :| 0 <= i < |expenses| && expenses[i] == f[0];
    assert IsExpense(expenses[i]);
    var j :| 0 <= j < |txns| && txns[j] == f[0];
  }

  lemma BucketSlices(txns: seq<Transaction>, keys: seq<string>, index: map<string, nat>, open: seq<Slice>)
    requires Bucketed(Filter(txns, IsExpense), SubCategoryOf, NewSlice, AddToSlice, keys, index, open)
    ensures forall k :: 0 <= k < |open| ==> open[k].value == SumOf(Filter(Filter(txns, IsExpense), HasKey(SubCategoryOf, keys[k])), Amount)
    ensures forall k :: 0 <= k < |open| ==> open[k].name == keys[k]
    ensures forall k :: 0 <= k < |open| ==> open[k].value == SumOf(txns, SubExpense(open[k].name))
    ensures forall k :: 0 <= k < |open| ==> HasExpenseIn(txns, open[k].name)
  {
    forall k | 0 <= k < |open|
      ensures open[k].value == SumOf(Filter(Filter(txns, IsExpense), HasKey(SubCategoryOf, keys[k])), Amount)
      ensures open[k].name == keys[k]
      ensures open[k].value == SumOf(txns, SubExpense(open[k].name))
      ensures HasExpenseIn(txns, open[k].name)
    {
      BucketSlice(txns, keys, index, open, k);
    }
  }

  /** An expense record's sub-category is a key of the loop's map. */
  lemma ExpenseIndexed(txns: seq<Transaction>, index: map<string, nat>, j: nat)
    requires forall i :: 0 <= i < |Filter(txns, IsExpense)| ==> SubCategoryOf(Filter(txns, IsExpense)[i]) in index
    requires j < |txns| && txns[j].category == Expense
    ensures txns[j].subCategory in index
  {
    var expenses := Filter(txns, IsExpense);
    FilterMembers(txns, IsExpense);
    assert txns[j] in expenses;
    var i :| 0 <= i < |expenses| && expenses[i] == txns[j];
    assert SubCategoryOf(expenses[i]) in index;
  }

  /** The bucket of one expense record. */
  lemma BucketCovers(txns: seq<Transaction>, keys: seq<string>, index: map<string, nat>, open: seq<Slice>, j: nat)
    requires Bucketed(Filter(txns, IsExpense), SubCategoryOf, NewSlice, AddToSlice, keys, index, open)
    requires forall k :: 0 <= k < |open| ==> open[k].name == keys[k]
    requires j < |txns| && txns[j].category == Expense
    ensures HasSlice(open, txns[j].subCategory)
  {
    ExpenseIndexed(txns, index, j);
    var k := index[txns[j].subCategory];
    assert open[k].name == txns[j].subCategory;
  }

  /** Every expense sub-category has a bucket. */
  lemma BucketsCover(txns: seq<Transaction>, keys: seq<string>, index: map<string, nat>, open: seq<Slice>)
    requires Bucketed(Filter(txns, IsExpense), SubCategoryOf, NewSlice, AddToSlice, keys, index, open)
    requires forall k :: 0 <= k < |open| ==> open[k].name == keys[k]
    ensures forall j :: 0 <= j < |txns| && txns[j].category == Expense ==> HasSlice(open, txns[j].subCategory)
  {
    forall j | 0 <= j < |txns| && txns[j].category == Expense
      ensures HasSlice(open, txns[j].subCategory)
    {
      BucketCovers(txns, keys, index, open, j);
    }
  }

  /** The buckets' slices are the slices of the ledger. */
  lemma BucketsAreSlices(txns: seq<Transaction>, keys: seq<string>, index: map<string, nat>, open: seq<Slice>)
    requires Bucketed(Filter(txns, IsExpense), SubCategoryOf, NewSlice, AddToSlice, keys, index, open)
    ensures SlicesOf(txns, open)
    ensures SumOf(open, SliceValue) == TotalExpense(txns)
  {
    var expenses := Filter(txns, IsExpense);
    BucketSlices(txns, keys, index, open);
    BucketedKeys(expenses, SubCategoryOf, NewSlice, AddToSlice, keys, index, open);
    BucketsCover(txns, keys, index, open);
    BucketedSum(expenses, SubCategoryOf, NewSlice, AddToSlice, keys, index, open, SliceValue, Amount);
    FilteredTotal(txns, IsExpense, ExpenseAmount);
  }

  /** Reordering slices keeps them the slices of the ledger, with the same total. */
  lemma SlicesPermutation(txns: seq<Transaction>, a: seq<Slice>, b: seq<Slice>)
    requires SlicesOf(txns, a) && multiset(b) == multiset(a)
    ensures SlicesOf(txns, b)
    ensures SumOf(b, SliceValue) == SumOf(a, SliceValue)
  {
    SumOfPermutation(b, a, SliceValue);
    PermutedNamesDistinct(a, b);
    PermutedSlicesSums(txns, a, b);
    PermutedSlicesCover(txns, a, b);
  }

  lemma PermutedNamesDistinct(a: seq<Slice>, b: seq<Slice>)
    requires forall i, j :: 0 <= i < j < |a| ==> a[i].name != a[j].name
    requires multiset(b) == multiset(a)
    ensures forall i, j :: 0 <= i < j < |b| ==> b[i].name != b[j].name
  {
    assert NoDuplicates(a);
    NoDuplicatesPermutation(a, b);
    forall i, j | 0 <= i < j < |b|
      ensures b[i].name != b[j].name
    {
      assert b[i] in multiset(a) && b[j] in multiset(a);
      var p :| 0 <= p < |a| && b[i] == a[p];
      var q :| 0 <= q < |a| && b[j] == a[q];
    }
  }

  lemma PermutedSlicesSums(txns: seq<Transaction>, a: seq<Slice>, b: seq<Slice>)
    requires forall k :: 0 <= k < |a| ==> HasExpenseIn(txns, a[k].name) && a[k].value == SumOf(txns, SubExpense(a[k].name))
    requires multiset(b) == multiset(a)
    ensures forall k :: 0 <= k < |b| ==> HasExpenseIn(txns, b[k].name) && b[k].value == SumOf(txns, SubExpense(b[k].name))
  {
    forall k | 0 <= k < |b|
      ensures HasExpenseIn(txns, b[k].name) && b[k].value == SumOf(txns, SubExpense(b[k].name))
    {
      assert b[k] in multiset(a);
      var p :| 0 <= p < |a| && b[k] == a[p];
    }
  }

  lemma PermutedSlicesCover(txns: seq<Transaction>, a: seq<Slice>, b: seq<Slice>)
    requires forall j :: 0 <= j < |txns| && txns[j].category == Expense ==> HasSlice(a, txns[j].subCategory)
    requires multiset(b) == multiset(a)
    ensures forall j :: 0 <= j < |txns| && txns[j].category == Expense ==> HasSlice(b, txns[j].subCategory)
  {
    forall j | 0 <= j < |txns| && txns[j].category == Expense
      ensures HasSlice(b, txns[j].subCategory)
    {
      var p :| 0 <= p < |a| && a[p].name == txns[j].subCategory;
      assert a[p] in multiset(b);
      var q :| 0 <= q < |b| && b[q] == a[p];
    }
  }

  /** `pieData`: the expenses grouped by sub-category into slices, largest first. */
  method PieData(txns: seq<Transaction>) returns (pie: seq<Slice>)
    ensures SlicesOf(txns, pie)
    ensures forall i, j :: 0 <= i < j < |pie| ==> pie[i].value >= pie[j].value
    ensures SumOf(pie, SliceValue) == TotalExpense(txns)
  {
    var open := ExpenseSlices(txns);
    pie := SortBy(open, LargestFirst);
    SortedSlices(txns, open);
  }

  /** The expense buckets of `pieData`, in first-seen order. */
  method ExpenseSlices(txns: seq<Transaction>) returns (open: seq<Slice>)
    ensures SlicesOf(txns, open)
    ensures SumOf(open, SliceValue) == TotalExpense(txns)
  {
    var expenses := Filter(txns, IsExpense);
    var index;
    ghost var keys;
    index, open, keys := BucketBy(expenses, SubCategoryOf, NewSlice, AddToSlice);
    BucketsAreSlices(txns, keys, index, open);
  }

  /** Sorting the buckets largest first keeps them the slices of the
      ledger, with the same total. */
  lemma SortedSlices(txns: seq<Transaction>, open: seq<Slice>)
    requires SlicesOf(txns, open)
    ensures var pie := SortBy(open, LargestFirst);
      SlicesOf(txns, pie)
      && (forall i, j :: 0 <= i < j < |pie| ==> pie[i].value >= pie[j].value)
      && SumOf(pie, SliceValue) == SumOf(open, SliceValue)
  {
    var pie := SortBy(open, LargestFirst);
    SlicesPermutation(txns, open, pie);
    assert forall i, j :: 0 <= i < j < |pie| ==> LargestFirst(pie[i]) <= LargestFirst(pie[j]);
  }

  /** `topCategories`: the same slices cut to the five largest. */
  method TopCategories(txns: seq<Transaction>) returns (top: seq<Slice>)
    ensures |top| <= 5
    ensures forall i, j :: 0 <= i < j < |top| ==> top[i].value >= top[j].value
    ensures forall k :: 0 <= k < |top| ==> HasExpenseIn(txns, top[k].name) && top[k].value == SumOf(txns, SubExpense(top[k].name))
    ensures forall i, j :: 0 <= i < j < |top| ==> top[i].name != top[j].name
    ensures |top| < 5 ==> forall j :: 0 <= j < |txns| && txns[j].category == Expense ==> HasSlice(top, txns[j].subCategory)
    ensures forall j :: 0 <= j < |txns| && txns[j].category == Expense && !HasSlice(top, txns[j].subCategory) ==>
      |top| == 5 && forall k :: 0 <= k < 5 ==> SumOf(txns, SubExpense(txns[j].subCategory)) <= top[k].value
  {
    var pie := PieData(txns);
    top := Take(pie, 5);
    TopAreLargest(txns, pie, top);
  }

  /** The first five slices of a largest-first pie outweigh every slice
      cut off. */
  lemma TopAreLargest(txns: seq<Transaction>, pie: seq<Slice>, top: seq<Slice>)
    requires SlicesOf(txns, pie)
    requires forall i, j :: 0 <= i < j < |pie| ==> pie[i].value >= pie[j].value
    requires top == Take(pie, 5)
    ensures forall j :: 0 <= j < |txns| && txns[j].category == Expense && !HasSlice(top, txns[j].subCategory) ==>
      |top| == 5 && forall k :: 0 <= k < 5 ==> SumOf(txns, SubExpense(txns[j].subCategory)) <= top[k].value
  {
    forall j | 0 <= j < |txns| && txns[j].category == Expense && !HasSlice(top, txns[j].subCategory)
      ensures |top| == 5 && forall k :: 0 <= k < 5 ==> SumOf(txns, SubExpense(txns[j].subCategory)) <= top[k].value
    {
      var name := txns[j].subCategory;
      assert HasSlice(pie, name);
      var m :| 0 <= m < |pie| && pie[m].name == name;
      assert m >= |top|;
      assert |top| == 5;
      forall k | 0 <= k < 5
        ensures SumOf(txns, SubExpense(name)) <= top[k].value
      {
        assert top[k] == pie[k] && k < m;
      }
    }
  }

  // ---------------------------------------------------------------------------
  // The month-by-month comparison

  /** One month of the comparison: its label and its income, expense and net. */
  datatype MonthEntry = MonthEntry(month: string, income: int, expense: int, net: int)

  /** The month a record falls in, as a number; equal exactly when the
      `YYYY-MM` keys are equal. */
  function MonthKey(t: Transaction): int
  {
    t.date.year * 12 + (t.date.month - 1)
  }

  /** The short month label "Mmm YY": the English month name and the year's
      last two digits, zero-padded. */
  function ShortLabel(d: Date): (s: string)
    ensures |s| == 6
  {
    MONTH_NAMES[d.month - 1] + " " + Digits(d.year % 100, 2)
  }

  function NewEntry(t: Transaction): MonthEntry
  {
    MonthEntry(ShortLabel(t.date), 0, 0, 0)
  }

  /** Income raises income and net; an expense raises expense and lowers net. */
  function AddToEntry(e: MonthEntry, t: Transaction): MonthEntry
  {
    if t.category == Income then e.(income := e.income + t.amount, net := e.net + t.amount)
    else if t.category == Expense then e.(expense := e.expense + t.amount, net := e.net - t.amount)
    else e
  }

  /** The comparison entry of the records `ts` of one month. */
  function EntryOf(ts: seq<Transaction>): MonthEntry
    requires ts != []
  {
    MonthEntry(ShortLabel(ts[0].date), TotalIncome(ts), TotalExpense(ts), TotalIncome(ts) - TotalExpense(ts))
  }

  /** The loop's entry is the label of the month's first record and its totals. */
  lemma {:induction false} EntryIsAccumulate(ts: seq<Transaction>)
    requires ts != []
    ensures Accumulate(ts, NewEntry, AddToEntry) == EntryOf(ts)
    decreases |ts|
  {
    if |ts| == 1 {
      assert ts == [ts[0]];
      SumOfSingleton(ts[0], IncomeAmount);
      SumOfSingleton(ts[0], ExpenseAmount);
    } else {
      var init, last := ts[..|ts| - 1], ts[|ts| - 1];
      EntryIsAccumulate(init);
      assert ts == init + [last];
      SumOfAppend(init, [last], IncomeAmount);
      SumOfAppend(init, [last], ExpenseAmount);
      SumOfSingleton(last, IncomeAmount);
      SumOfSingleton(last, ExpenseAmount);
    }
  }

  function EntryIncome(e: MonthEntry): int
  {
    e.income
  }

  function EntryExpense(e: MonthEntry): int
  {
    e.expense
  }

  /** Sorting by this key orders the labels as the string order does, which
      for ASCII labels of this shape is also their locale order. */
  function EntryOrder(e: MonthEntry): int
  {
    Rank(e.month)
  }

  /** `e` is the entry of a month that has records. */
  ghost predicate IsMonthEntry(txns: seq<Transaction>, e: MonthEntry)
  {
    exists k :: Filter(txns, HasKey(MonthKey, k)) != [] && e == EntryOf(Filter(txns, HasKey(MonthKey, k)))
  }

  /** The month `k` has records, and its entry is among `entries`. */
  ghost predicate HasEntry(entries: seq<MonthEntry>, txns: seq<Transaction>, k: int)
  {
    Filter(txns, HasKey(MonthKey, k)) != [] && EntryOf(Filter(txns, HasKey(MonthKey, k))) in entries
  }

  /** What the loop's buckets hold once read through `EntryOf`. */
  lemma BucketEntry(txns: seq<Transaction>, keys: seq<int>, index: map<int, nat>, open: seq<MonthEntry>, k: nat)
    requires Bucketed(txns, MonthKey, NewEntry, AddToEntry, keys, index, open) && k < |open|
    ensures open[k] == EntryOf(Filter(txns, HasKey(MonthKey, keys[k])))
    ensures IsMonthEntry(txns, open[k])
  {
    EntryIsAccumulate(Filter(txns, HasKey(MonthKey, keys[k])));
  }

  lemma BucketEntries(txns: seq<Transaction>, keys: seq<int>, index: map<int, nat>, open: seq<MonthEntry>)
    requires Bucketed(txns, MonthKey, NewEntry, AddToEntry, keys, index, open)
    ensures forall k :: 0 <= k < |open| ==> open[k] == EntryOf(Filter(txns, HasKey(MonthKey, keys[k])))
    ensures forall k :: 0 <= k < |open| ==> IsMonthEntry(txns, open[k])
  {
    forall k | 0 <= k < |open|
      ensures open[k] == EntryOf(Filter(txns, HasKey(MonthKey, keys[k])))
      ensures IsMonthEntry(txns, open[k])
    {
      BucketEntry(txns, keys, index, open, k);
    }
  }

  /** Each record's month has its entry among the buckets. */
  lemma BucketEntriesCover(txns: seq<Transaction>, keys: seq<int>, index: map<int, nat>, open: seq<MonthEntry>, j: nat)
    requires Bucketed(txns, MonthKey, NewEntry, AddToEntry, keys, index, open)
    requires forall k :: 0 <= k < |open| ==> open[k] == EntryOf(Filter(txns, HasKey(MonthKey, keys[k])))
    requires j < |txns|
    ensures HasEntry(open, txns, MonthKey(txns[j]))
  {
    var k := index[MonthKey(txns[j])];
    assert keys[k] == MonthKey(txns[j]);
  }

  /** The buckets' incomes and expenses add up to the ledger's. */
  lemma BucketTotals(txns: seq<Transaction>, keys: seq<int>, index: map<int, nat>, open: seq<MonthEntry>)
    requires Bucketed(txns, MonthKey, NewEntry, AddToEntry, keys, index, open)
    requires forall k :: 0 <= k < |open| ==> open[k] == EntryOf(Filter(txns, HasKey(MonthKey, keys[k])))
    ensures SumOf(open, EntryIncome) == TotalIncome(txns)
    ensures SumOf(open, EntryExpense) == TotalExpense(txns)
  {
    BucketedSum(txns, MonthKey, NewEntry, AddToEntry, keys, index, open, EntryIncome, IncomeAmount);
    BucketedSum(txns, MonthKey, NewEntry, AddToEntry, keys, index, open, EntryExpense, ExpenseAmount);
  }

  /** Reordering keeps every entry a month's entry. */
  lemma EntriesPermutation(txns: seq<Transaction>, a: seq<MonthEntry>, b: seq<MonthEntry>)
    requires multiset(b) == multiset(a)
    requires forall i :: 0 <= i < |a| ==> IsMonthEntry(txns, a[i])
    ensures forall i :: 0 <= i < |b| ==> IsMonthEntry(txns, b[i])
  {
    forall i | 0 <= i < |b|
      ensures IsMonthEntry(txns, b[i])
    {
      assert b[i] in multiset(a);
      var p :| 0 <= p < |a| && b[i] == a[p];
    }
  }

  /** Reordering keeps every month's entry present. */
  lemma EntriesPermutationCover(txns: seq<Transaction>, a: seq<MonthEntry>, b: seq<MonthEntry>)
    requires multiset(b) == multiset(a)
    requires forall j :: 0 <= j < |txns| ==> HasEntry(a, txns, MonthKey(txns[j]))
    ensures forall j :: 0 <= j < |txns| ==> HasEntry(b, txns, MonthKey(txns[j]))
  {
    SameMembers(a, b);
  }

  /** Sorted by rank, the labels never descend in string order. */
  lemma RankSortedLabels(entries: seq<MonthEntry>)
    requires SortedBy(entries, EntryOrder)
    requires forall i :: 0 <= i < |entries| ==> |entries[i].month| == 6
    ensures forall i, j :: 0 <= i < j < |entries| ==> !StrLt(entries[j].month, entries[i].month)
  {
    forall i, j | 0 <= i < j < |entries|
      ensures !StrLt(entries[j].month, entries[i].month)
    {
      assert EntryOrder(entries[i]) <= EntryOrder(entries[j]);
      if StrLt(entries[j].month, entries[i].month) {
        RankOrders(entries[j].month, entries[i].month);
      }
    }
  }

  /** `monthlyComparison`: the records grouped by month into entries, then
      ordered by label. */
  method MonthlyComparison(txns: seq<Transaction>) returns (entries: seq<MonthEntry>)
    ensures forall i :: 0 <= i < |entries| ==> IsMonthEntry(txns, entries[i])
    ensures forall j :: 0 <= j < |txns| ==> HasEntry(entries, txns, MonthKey(txns[j]))
    ensures forall i, j :: 0 <= i < j < |entries| ==> !StrLt(entries[j].month, entries[i].month)
    ensures SumOf(entries, EntryIncome) == TotalIncome(txns)
    ensures SumOf(entries, EntryExpense) == TotalExpense(txns)
    ensures |entries| == |Distinct(MapSeq(txns, MonthKey))|
  {
    var index, open;
    ghost var keys;
    index, open, keys := BucketBy(txns, MonthKey, NewEntry, AddToEntry);
    BucketCount(txns, MonthKey, NewEntry, AddToEntry, keys, index, open);
    BucketEntries(txns, keys, index, open);
    forall j | 0 <= j < |txns|
      ensures HasEntry(open, txns, MonthKey(txns[j]))
    {
      BucketEntriesCover(txns, keys, index, open, j);
    }
    BucketTotals(txns, keys, index, open);
    entries := SortBy(open, EntryOrder);
    EntriesPermutation(txns, open, entries);
    EntriesPermutationCover(txns, open, entries);
    SumOfPermutation(entries, open, EntryIncome);
    SumOfPermutation(entries, open, EntryExpense);
    forall i | 0 <= i < |entries|
      ensures |entries[i].month| == 6
    {
      var k :| Filter(txns, HasKey(MonthKey, k)) != [] && entries[i] == EntryOf(Filter(txns, HasKey(MonthKey, k)));
    }
    RankSortedLabels(entries);
  }

  /** Every entry's net is its income minus its expense. */
  lemma EntryNet(txns: seq<Transaction>, e: MonthEntry)
    requires IsMonthEntry(txns, e)
    ensures e.net == e.income - e.expense
  {
  }
}
