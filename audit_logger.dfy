/** The audit trail: where a request came from, the query that lists
    stored entries (its optional filters and its default page size), and a
    user's activity summary over the last days. The entries themselves live
    in the database; here they are a sequence handed in. */
module AuditLogger {
  import opened Common
  import opened Text

  // ---------------------------------------------------------------------------
  // Entries

  const LOGIN: string := "LOGIN"
  const LOGOUT: string := "LOGOUT"
  const CREATE: string := "CREATE"
  const UPDATE: string := "UPDATE"
  const DELETE: string := "DELETE"
  const IMPORT: string := "IMPORT"
  const VIEW: string := "VIEW"

  /** A stored audit entry; the timestamp is in milliseconds. */
  datatype AuditEntry = AuditEntry(
    id: nat,
    username: string,
    action: string,
    entityType: Option<string>,
    entityId: Option<string>,
    details: Option<string>,
    ipAddress: Option<string>,
    userAgent: Option<string>,
    timestamp: int)

  /** What is read from a request: the `x-forwarded-for` header when it is a
      single text, the socket's remote address ("" when there is none) and
      the `user-agent` header ("" when there is none). */
  datatype Request = Request(forwardedFor: Option<string>, remoteAddress: string, userAgent: string)

  const UNKNOWN_ADDRESS: string := "unknown"

  /** `getClientIp`: the first address of the forwarding chain, trimmed;
      without the header the remote address, or "unknown". */
  function ClientIp(req: Request): (r: string)
    ensures req.forwardedFor.None? ==> r != ""
    ensures req.forwardedFor.None? && req.remoteAddress != "" ==> r == req.remoteAddress
    ensures req.forwardedFor.None? && req.remoteAddress == "" ==> r == UNKNOWN_ADDRESS
    ensures req.forwardedFor.Some? ==> ',' !in r
  {
    SplitPiecesFree(req);
    if req.forwardedFor.Some? then Trim(Split(req.forwardedFor.value, ',')[0])
    else if req.remoteAddress != "" then req.remoteAddress
    else UNKNOWN_ADDRESS
  }

  /** The first piece of a split holds no separator. */
  lemma SplitPiecesFree(req: Request)
    ensures req.forwardedFor.Some? ==> ',' !in Trim(Split(req.forwardedFor.value, ',')[0])
  {
    if req.forwardedFor.Some? {
      var first := Split(req.forwardedFor.value, ',')[0];
      TrimInside(first);
    }
  }

  /** A proxy chain `client, proxy1, proxy2, ...` names the client: the
      address before the first comma, with the blanks around it dropped. */
  lemma ForwardedClientIp(client: string, proxies: seq<string>, remote: string, agent: string)
    requires ',' !in client
    ensures ClientIp(Request(Some(Join([client] + proxies, ",")), remote, agent)) == Trim(client)
  {
    var chain := [client] + proxies;
    if proxies == [] {
      SplitNoSeparator(client, ',');
    } else {
      assert chain[1..] == proxies;
      assert Join(chain, ",") == client + [','] + Join(proxies, ",");
      SplitAppendSeparated(client, ',', Join(proxies, ","));
    }
  }

  function OrNull(s: string): Option<string>
  {
    if s == "" then None else Some(s)
  }

  /** The entry `createAuditLog` writes for an action without entity or
      details: the request, when there is one, gives the address and the
      user agent; an empty user agent is stored as null. */
  function LoggedEntry(id: nat, username: string, action: string, req: Option<Request>, now: int): (e: AuditEntry)
    ensures e.username == username && e.action == action && e.timestamp == now && e.id == id
    ensures e.entityType.None? && e.entityId.None? && e.details.None?
    ensures req.None? ==> e.ipAddress.None? && e.userAgent.None?
    ensures req.Some? ==> e.ipAddress == Some(ClientIp(req.value))
    ensures req.Some? ==> (e.userAgent.None? <==> req.value.userAgent == "")
  {
    AuditEntry(
      id, username, action, None, None, None,
      if req.Some? then Some(ClientIp(req.value)) else None,
      if req.Some? then OrNull(req.value.userAgent) else None,
      now)
  }

  // ---------------------------------------------------------------------------
  // Listing entries: `getAuditLogs`

  /** The filters of a listing. An empty text stands for a filter that is
      absent (or falsy); `limit` 0 stands for one that is absent, 0 or not a
      number. */
  datatype LogFilters = LogFilters(
    username: string,
    action: string,
    startDate: Option<int>,
    endDate: Option<int>,
    limit: int)

  const DEFAULT_LIMIT: int := 100

  /** The entries the filters let through: every filter that is present
      must hold, and the date bounds are inclusive. */
  predicate Admits(filters: LogFilters, e: AuditEntry)
  {
    (filters.username != "" ==> e.username == filters.username)
    && (filters.action != "" ==> e.action == filters.action)
    && (filters.startDate.Some? ==> e.timestamp >= filters.startDate.value)
    && (filters.endDate.Some? ==> e.timestamp <= filters.endDate.value)
  }

  function AdmitsF(filters: LogFilters): AuditEntry -> bool
  {
    e => Admits(filters, e)
  }

  /** The query's `where` object: each key is present only when it
      constrains something. */
  datatype TimeRange = TimeRange(gte: Option<int>, lte: Option<int>)

  datatype Where = Where(username: Option<string>, action: Option<string>, timestamp: Option<TimeRange>)

  /** The entries the database returns for a `where` object. */
  predicate Selects(w: Where, e: AuditEntry)
  {
    (w.username.Some? ==> e.username == w.username.value)
    && (w.action.Some? ==> e.action == w.action.value)
    && (w.timestamp.Some? ==>
          (w.timestamp.value.gte.Some? ==> e.timestamp >= w.timestamp.value.gte.value)
          && (w.timestamp.value.lte.Some? ==> e.timestamp <= w.timestamp.value.lte.value))
  }

  /** Builds the `where` object key by key. It selects exactly the entries
      the filters admit, and it has a timestamp range only when a date bound
      is given. */
  method BuildWhere(filters: LogFilters) returns (w: Where)
    ensures forall e :: Selects(w, e) <==> Admits(filters, e)
    ensures w.username.Some? <==> filters.username != ""
    ensures w.action.Some? <==> filters.action != ""
    ensures w.timestamp.Some? <==> filters.startDate.Some? || filters.endDate.Some?
  {
    w := Where(None, None, None);
    if filters.username != "" {
      w := w.(username := Some(filters.username));
    }
    if filters.action != "" {
      w := w.(action := Some(filters.action));
    }
    if filters.startDate.Some? || filters.endDate.Some? {
      var range := TimeRange(None, None);
      if filters.startDate.Some? {
        range := range.(gte := filters.startDate);
      }
      if filters.endDate.Some? {
        range := range.(lte := filters.endDate);
      }
      w := w.(timestamp := Some(range));
    }
  }

  /** `filters?.limit || 100`. */
  function PageSize(filters: LogFilters): int
  {
    if filters.limit == 0 then DEFAULT_LIMIT else filters.limit
  }

  /** Newest first: ascending in the negated timestamp. */
  function NewestFirst(e: AuditEntry): int
  {
    -e.timestamp
  }

  /** The database's `take`: a non-negative count takes from the front, a
      negative one takes that many from the back. */
  function TakeRows<T>(s: seq<T>, n: int): (r: seq<T>)
    ensures |r| <= |s|
    ensures |r| <= if n >= 0 then n else -n
  {
    if n >= 0 then Take(s, n)
    else s[|s| - (if -n <= |s| then -n else |s|)..]
  }

  /** `getAuditLogs`: the admitted entries, newest first, one page of them.
      AuditQueryMeaning states which entries and how many. */
  function AuditQuery(logs: seq<AuditEntry>, filters: LogFilters): (r: seq<AuditEntry>)
    ensures |r| <= |logs|
    ensures |r| <= if PageSize(filters) >= 0 then PageSize(filters) else -PageSize(filters)
    ensures filters.limit == 0 ==> |r| <= DEFAULT_LIMIT
  {
    TakeRows(SortBy(Filter(logs, AdmitsF(filters)), NewestFirst), PageSize(filters))
  }

  /** The number of rows a page size lets through: its magnitude. */
  function PageRows(filters: LogFilters): nat
  {
    if PageSize(filters) >= 0 then PageSize(filters) else -PageSize(filters)
  }

  /** A listing holds only stored entries the filters admit, newest first;
      it holds as many of them as the page size allows (100 when no limit
      is given), all of them when they fit, and with a non-negative page
      size the newest ones: every admitted entry left out is no newer than
      every listed one (with a negative size, no older). */
  lemma AuditQueryMeaning(logs: seq<AuditEntry>, filters: LogFilters)
    ensures forall i :: 0 <= i < |AuditQuery(logs, filters)| ==>
      AuditQuery(logs, filters)[i] in logs && Admits(filters, AuditQuery(logs, filters)[i])
    ensures forall i, j :: 0 <= i < j < |AuditQuery(logs, filters)| ==>
      AuditQuery(logs, filters)[i].timestamp >= AuditQuery(logs, filters)[j].timestamp
    ensures |AuditQuery(logs, filters)|
      == if PageRows(filters) <= Count(logs, AdmitsF(filters)) then PageRows(filters) else Count(logs, AdmitsF(filters))
    ensures filters.limit == 0 ==> |AuditQuery(logs, filters)| <= DEFAULT_LIMIT
    ensures Count(logs, AdmitsF(filters)) <= PageRows(filters) ==>
      forall e :: e in logs && Admits(filters, e) ==> e in AuditQuery(logs, filters)
    ensures forall e, i ::
      (e in logs && Admits(filters, e) && e !in AuditQuery(logs, filters) && 0 <= i < |AuditQuery(logs, filters)|) ==>
      if PageSize(filters) >= 0 then AuditQuery(logs, filters)[i].timestamp >= e.timestamp
      else AuditQuery(logs, filters)[i].timestamp <= e.timestamp
  {
    AuditQuerySound(logs, filters);
    ListingLength(logs, filters);
    AuditQueryComplete(logs, filters);
    forall e, i | e in logs && Admits(filters, e) && e !in AuditQuery(logs, filters)
      && 0 <= i < |AuditQuery(logs, filters)|
      ensures if PageSize(filters) >= 0 then AuditQuery(logs, filters)[i].timestamp >= e.timestamp
              else AuditQuery(logs, filters)[i].timestamp <= e.timestamp
    {
      AuditQueryNewest(logs, filters, e, i);
    }
  }

  /** An entry of a listing is one the filters admit. */
  lemma QueriedAdmitted(logs: seq<AuditEntry>, filters: LogFilters, e: AuditEntry)
    requires e in AuditQuery(logs, filters)
    ensures e in logs && Admits(filters, e)
  {
    var r := AuditQuery(logs, filters);
    var k :| 0 <= k < |r| && r[k] == e;
    AuditQuerySound(logs, filters);
    assert r[k] in logs && Admits(filters, r[k]);
  }

  /** Soundness and order of a listing. */
  lemma AuditQuerySound(logs: seq<AuditEntry>, filters: LogFilters)
    ensures forall i :: 0 <= i < |AuditQuery(logs, filters)| ==>
      AuditQuery(logs, filters)[i] in logs && Admits(filters, AuditQuery(logs, filters)[i])
    ensures forall i, j :: 0 <= i < j < |AuditQuery(logs, filters)| ==>
      AuditQuery(logs, filters)[i].timestamp >= AuditQuery(logs, filters)[j].timestamp
  {
    var admitted := Filter(logs, AdmitsF(filters));
    var sorted := SortBy(admitted, NewestFirst);
    var r := AuditQuery(logs, filters);
    FilterMembers(logs, AdmitsF(filters));
    forall i | 0 <= i < |r|
      ensures r[i] in logs && Admits(filters, r[i])
    {
      var k := TakenIndex(sorted, PageSize(filters), i);
      assert r[i] == sorted[k];
      assert sorted[k] in multiset(admitted);
      var m :| 0 <= m < |admitted| && admitted[m] == sorted[k];
      assert AdmitsF(filters)(admitted[m]);
    }
    forall i, j | 0 <= i < j < |r|
      ensures r[i].timestamp >= r[j].timestamp
    {
      var ki := TakenIndex(sorted, PageSize(filters), i);
      var kj := TakenIndex(sorted, PageSize(filters), j);
      assert NewestFirst(sorted[ki]) <= NewestFirst(sorted[kj]);
    }
  }

  /** A listing holds as many admitted entries as the page size lets
      through, or all of them when there are fewer. */
  lemma ListingLength(logs: seq<AuditEntry>, filters: LogFilters)
    ensures |AuditQuery(logs, filters)|
      == if PageRows(filters) <= Count(logs, AdmitsF(filters)) then PageRows(filters) else Count(logs, AdmitsF(filters))
  {
    var sorted := SortBy(Filter(logs, AdmitsF(filters)), NewestFirst);
    assert |sorted| == Count(logs, AdmitsF(filters));
    TakeRowsLength(sorted, PageSize(filters), PageRows(filters));
  }

  /** A `take` keeps as many rows as the magnitude of its count allows. */
  lemma TakeRowsLength<T>(s: seq<T>, n: int, m: nat)
    requires m == if n >= 0 then n else -n
    ensures |TakeRows(s, n)| == if m <= |s| then m else |s|
  {
  }

  /** A `take` that allows at least as many rows as there are keeps them all. */
  lemma TakeRowsAll<T>(s: seq<T>, n: int)
    requires |s| <= if n >= 0 then n else -n
    ensures TakeRows(s, n) == s
  {
  }

  /** In a list sorted by `key`, the rows a `take` leaves out come after
      every kept row when it takes from the front, and before them when it
      takes from the back. */
  lemma TakeRowsNewest<T>(s: seq<T>, key: T -> int, n: int, x: T, i: nat)
    requires SortedBy(s, key)
    requires x in multiset(s) && x !in TakeRows(s, n)
    requires i < |TakeRows(s, n)|
    ensures n >= 0 ==> key(TakeRows(s, n)[i]) <= key(x)
    ensures n < 0 ==> key(x) <= key(TakeRows(s, n)[i])
  {
    var k := IndexOfMember(s, x);
    var t := TakeRows(s, n);
    if n >= 0 {
      assert t == s[..|t|];
      assert k >= |t|;
      assert t[i] == s[i];
    } else {
      var start := |s| - |t|;
      assert t == s[start..];
      assert k < start;
      assert t[i] == s[start + i];
    }
  }

  /** Every admitted entry is among the sorted admitted entries. */
  lemma AdmittedSorted(logs: seq<AuditEntry>, filters: LogFilters, e: AuditEntry)
    requires e in logs && Admits(filters, e)
    ensures e in multiset(SortBy(Filter(logs, AdmitsF(filters)), NewestFirst))
  {
    FilterMembers(logs, AdmitsF(filters));
    assert AdmitsF(filters)(e);
    assert e in multiset(Filter(logs, AdmitsF(filters)));
  }

  /** When the admitted entries fit in a page, the listing holds them all. */
  lemma AuditQueryComplete(logs: seq<AuditEntry>, filters: LogFilters)
    ensures Count(logs, AdmitsF(filters)) <= PageRows(filters) ==>
      forall e :: e in logs && Admits(filters, e) ==> e in AuditQuery(logs, filters)
  {
    if Count(logs, AdmitsF(filters)) <= PageRows(filters) {
      var sorted := SortBy(Filter(logs, AdmitsF(filters)), NewestFirst);
      TakeRowsAll(sorted, PageSize(filters));
      forall e | e in logs && Admits(filters, e)
        ensures e in AuditQuery(logs, filters)
      {
        AdmittedSorted(logs, filters, e);
      }
    }
  }

  /** An admitted entry left out of a listing is no newer than any listed
      entry (no older, with a negative page size). */
  lemma AuditQueryNewest(logs: seq<AuditEntry>, filters: LogFilters, e: AuditEntry, i: nat)
    requires e in logs && Admits(filters, e) && e !in AuditQuery(logs, filters)
    requires i < |AuditQuery(logs, filters)|
    ensures if PageSize(filters) >= 0 then AuditQuery(logs, filters)[i].timestamp >= e.timestamp
            else AuditQuery(logs, filters)[i].timestamp <= e.timestamp
  {
    var sorted := SortBy(Filter(logs, AdmitsF(filters)), NewestFirst);
    AdmittedSorted(logs, filters, e);
    TakeRowsNewest(sorted, NewestFirst, PageSize(filters), e, i);
  }

  /** Where the `i`-th taken row sits in the input; taking keeps the order. */
  lemma TakenIndex<T>(s: seq<T>, n: int, i: nat) returns (k: nat)
    requires i < |TakeRows(s, n)|
    ensures k < |s| && TakeRows(s, n)[i] == s[k]
    ensures forall j :: i < j < |TakeRows(s, n)| ==> k < k + (j - i) < |s| && TakeRows(s, n)[j] == s[k + (j - i)]
  {
    if n >= 0 {
      k := i;
    } else {
      var m := if -n <= |s| then -n else |s|;
      k := |s| - m + i;
    }
  }

  /** The query the method's `where` object stands for is the one the
      filters describe. */
  lemma {:induction false} WhereQueriesAlike(logs: seq<AuditEntry>, filters: LogFilters, w: Where)
    requires forall e :: Selects(w, e) <==> Admits(filters, e)
    ensures Filter(logs, e => Selects(w, e)) == Filter(logs, AdmitsF(filters))
    decreases |logs|
  {
    if logs != [] {
      WhereQueriesAlike(logs[1..], filters, w);
    }
  }

  // ---------------------------------------------------------------------------
  // A user's activity: `getUserActivity`

  const DAY_MS: int := 86400000
  const RECENT_LIMIT: nat := 20

  /** The entries of the user (letter case ignored) since the start time. */
  function InScope(username: string, since: int): AuditEntry -> bool
  {
    (e: AuditEntry) => Lower(e.username) == Lower(username) && e.timestamp >= since
  }

  /** The user's entries, newest first. */
  function ActivityLogs(logs: seq<AuditEntry>, username: string, since: int): seq<AuditEntry>
  {
    SortBy(Filter(logs, InScope(username, since)), NewestFirst)
  }

  function HasAction(action: string): AuditEntry -> bool
  {
    (e: AuditEntry) => e.action == action
  }

  /** The entries none of the six statistics counts (`VIEW` and any other). */
  function Uncounted(): AuditEntry -> bool
  {
    (e: AuditEntry) => e.action != LOGIN && e.action != LOGOUT && e.action != CREATE
                       && e.action != UPDATE && e.action != DELETE && e.action != IMPORT
  }

  datatype Statistics = Statistics(
    totalActions: nat, logins: nat, logouts: nat, creates: nat, updates: nat, deletes: nat, imports: nat)

  /** The timestamp of the first entry with the action, if any (`find`). */
  function FirstWith(logs: seq<AuditEntry>, action: string): (r: Option<int>)
    ensures r.None? <==> forall i :: 0 <= i < |logs| ==> logs[i].action != action
    ensures r.Some? ==> (exists i :: 0 <= i < |logs| && logs[i].action == action && logs[i].timestamp == r.value
                                     && forall j :: 0 <= j < i ==> logs[j].action != action)
    decreases |logs|
  {
    if logs == [] then None
    else if logs[0].action == action then Some(logs[0].timestamp)
    else
      var r := FirstWith(logs[1..], action);
      assert forall j :: 1 <= j < |logs| ==> logs[j] == logs[1..][j - 1];
      r
  }

  datatype Activity = Activity(
    username: string,
    period: string,
    statistics: Statistics,
    lastLogin: Option<int>,
    lastLogout: Option<int>,
    recentActivity: seq<AuditEntry>)

  /** The `statistics` object: the number of entries and the count of each
      of the six tracked actions. */
  function StatisticsOf(logs: seq<AuditEntry>): (s: Statistics)
    ensures s.totalActions == |logs|
    ensures s.logins + s.logouts + s.creates + s.updates + s.deletes + s.imports + Count(logs, Uncounted()) == |logs|
  {
    CountsPartition(logs);
    Statistics(
      |logs|, Count(logs, HasAction(LOGIN)), Count(logs, HasAction(LOGOUT)), Count(logs, HasAction(CREATE)),
      Count(logs, HasAction(UPDATE)), Count(logs, HasAction(DELETE)), Count(logs, HasAction(IMPORT)))
  }

  /** `getUserActivity` at time `now` (milliseconds) over the last `days`. */
  function UserActivity(all: seq<AuditEntry>, username: string, days: int, now: int): (r: Activity)
    ensures r.username == username
    ensures StartsWith(r.period, "Last ") && r.period == "Last " + IntToString(days) + " days"
    ensures |r.recentActivity| <= RECENT_LIMIT
  {
    var logs := ActivityLogs(all, username, now - days * DAY_MS);
    Activity(
      username, "Last " + IntToString(days) + " days", StatisticsOf(logs),
      FirstWith(logs, LOGIN), FirstWith(logs, LOGOUT), Take(logs, RECENT_LIMIT))
  }

  /** Every entry falls under exactly one of the six counted actions or
      under none: the counts and the uncounted entries add up to the
      total. */
  lemma {:induction false} CountsPartition(logs: seq<AuditEntry>)
    ensures Count(logs, HasAction(LOGIN)) + Count(logs, HasAction(LOGOUT)) + Count(logs, HasAction(CREATE))
      + Count(logs, HasAction(UPDATE)) + Count(logs, HasAction(DELETE)) + Count(logs, HasAction(IMPORT))
      + Count(logs, Uncounted()) == |logs|
    decreases |logs|
  {
    if logs != [] {
      CountsPartition(logs[1..]);
    }
  }

  /** The six counts never exceed the total; they fall short of it by the
      entries of other actions, such as `VIEW`. */
  lemma StatisticsBound(logs: seq<AuditEntry>)
    ensures var s := StatisticsOf(logs);
      s.logins + s.logouts + s.creates + s.updates + s.deletes + s.imports + Count(logs, Uncounted()) == s.totalActions
    ensures var s := StatisticsOf(logs);
      s.logins + s.logouts + s.creates + s.updates + s.deletes + s.imports <= s.totalActions
  {
    CountsPartition(logs);
  }

  /** In a newest-first list the first login found is the latest login. */
  lemma FirstIsLatest(logs: seq<AuditEntry>, action: string)
    requires SortedBy(logs, NewestFirst)
    requires FirstWith(logs, action).Some?
    ensures forall i :: 0 <= i < |logs| && logs[i].action == action ==> logs[i].timestamp <= FirstWith(logs, action).value
  {
    var k :| 0 <= k < |logs| && logs[k].action == action && logs[k].timestamp == FirstWith(logs, action).value
      && forall j :: 0 <= j < k ==> logs[j].action != action;
    forall i | 0 <= i < |logs| && logs[i].action == action
      ensures logs[i].timestamp <= logs[k].timestamp
    {
      if i != k {
        assert k < i;
        assert NewestFirst(logs[k]) <= NewestFirst(logs[i]);
      }
    }
  }

  /** The summary: the statistics count the user's entries since the start,
      the last login and logout are the latest ones (none when there are
      none), and the recent activity is the newest at most 20 entries. */
  lemma UserActivityMeaning(all: seq<AuditEntry>, username: string, days: int, now: int)
    ensures var a := UserActivity(all, username, days, now);
      var logs := ActivityLogs(all, username, now - days * DAY_MS);
      a.statistics.totalActions == |logs|
      && a.recentActivity == Take(logs, RECENT_LIMIT)
      && (a.lastLogin.None? <==> forall i :: 0 <= i < |logs| ==> logs[i].action != LOGIN)
      && (a.lastLogin.Some? ==> forall i :: 0 <= i < |logs| && logs[i].action == LOGIN ==> logs[i].timestamp <= a.lastLogin.value)
      && (a.lastLogout.None? <==> forall i :: 0 <= i < |logs| ==> logs[i].action != LOGOUT)
      && (a.lastLogout.Some? ==> forall i :: 0 <= i < |logs| && logs[i].action == LOGOUT ==> logs[i].timestamp <= a.lastLogout.value)
  {
    var logs := ActivityLogs(all, username, now - days * DAY_MS);
    LatestWith(logs, LOGIN);
    LatestWith(logs, LOGOUT);
  }

  /** In a newest-first list the first entry found with an action is the
      latest one, and none is found exactly when there is none. */
  lemma LatestWith(logs: seq<AuditEntry>, action: string)
    requires SortedBy(logs, NewestFirst)
    ensures FirstWith(logs, action).None? <==> forall i :: 0 <= i < |logs| ==> logs[i].action != action
    ensures FirstWith(logs, action).Some? ==>
      forall i :: 0 <= i < |logs| && logs[i].action == action ==> logs[i].timestamp <= FirstWith(logs, action).value
  {
    if FirstWith(logs, action).Some? {
      FirstIsLatest(logs, action);
    }
  }

  /** The summary covers exactly the stored entries of that user (letter
      case ignored) no older than the start time, each as often as it is
      stored. */
  lemma ActivityLogsScope(all: seq<AuditEntry>, username: string, since: int)
    ensures forall e :: e in ActivityLogs(all, username, since) <==>
      e in all && Lower(e.username) == Lower(username) && e.timestamp >= since
    ensures multiset(ActivityLogs(all, username, since)) == multiset(Filter(all, InScope(username, since)))
  {
    var logs := ActivityLogs(all, username, since);
    var scoped := Filter(all, InScope(username, since));
    FilterMembers(all, InScope(username, since));
    forall e | e in logs
      ensures e in all && Lower(e.username) == Lower(username) && e.timestamp >= since
    {
      assert e in multiset(scoped);
      var m :| 0 <= m < |scoped| && scoped[m] == e;
      assert InScope(username, since)(scoped[m]);
    }
    forall e | e in all && Lower(e.username) == Lower(username) && e.timestamp >= since
      ensures e in logs
    {
      assert InScope(username, since)(e);
      assert e in multiset(scoped);
    }
  }
}
