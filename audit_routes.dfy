/** The audit endpoints: recording a login or logout (refused without a
    username), listing entries with the filters the query string supplies,
    and the session history that merges the latest logins and logouts. */
module AuditRoutes {
  import opened Common
  import opened Text
  import opened Ledger
  import opened AuditLogger

  // ---------------------------------------------------------------------------
  // `POST /log-login` and `POST /log-logout`

  const STATUS_OK: int := 200
  const STATUS_BAD_REQUEST: int := 400

  /** The reply's status and the audit entries afterwards. */
  datatype PostResult = PostResult(status: int, logs: seq<AuditEntry>)

  /** Records `action` for the body's username ("" when it is absent or
      falsy). Without a username the request is refused and nothing is
      written. */
  function PostLog(action: string, username: string, req: Request, logs: seq<AuditEntry>, id: nat, now: int): (r: PostResult)
    ensures username == "" ==> r.status == STATUS_BAD_REQUEST && r.logs == logs
    ensures username != "" ==> r.status == STATUS_OK && r.logs == logs + [LoggedEntry(id, username, action, Some(req), now)]
  {
    if username == "" then PostResult(STATUS_BAD_REQUEST, logs)
    else PostResult(STATUS_OK, logs + [LoggedEntry(id, username, action, Some(req), now)])
  }

  /** A login request adds exactly one login to the statistics when it
      names a user and none otherwise; the other counts stay as they were. */
  lemma PostLoginCounts(username: string, req: Request, logs: seq<AuditEntry>, id: nat, now: int, other: string)
    requires other != LOGIN
    ensures var after := PostLog(LOGIN, username, req, logs, id, now).logs;
      Count(after, HasAction(LOGIN)) == Count(logs, HasAction(LOGIN)) + (if username != "" then 1 else 0)
      && Count(after, HasAction(other)) == Count(logs, HasAction(other))
      && |after| == |logs| + (if username != "" then 1 else 0)
  {
    if username != "" {
      var e := LoggedEntry(id, username, LOGIN, Some(req), now);
      FilterAppend(logs, [e], HasAction(LOGIN));
      FilterAppend(logs, [e], HasAction(other));
    }
  }

  // ---------------------------------------------------------------------------
  // `GET /`

  /** The listing's query string; "" for a parameter that is absent. The
      dates are given already read as timestamps. */
  datatype LogQuery = LogQuery(username: string, action: string, startDate: Option<int>, endDate: Option<int>, limit: string)

  /** The filters object: a key only for a parameter that is supplied; the
      limit read with `parseInt`, where a text that is not a number gives a
      falsy limit. */
  function FiltersOf(q: LogQuery): (f: LogFilters)
    ensures f.username == q.username && f.action == q.action
    ensures f.startDate == q.startDate && f.endDate == q.endDate
    ensures PageSize(f) == if ParseNumber(q.limit).Some? && ParseNumber(q.limit).value != 0
                           then ParseNumber(q.limit).value else DEFAULT_LIMIT
  {
    var limit := if q.limit != "" && ParseNumber(q.limit).Some? then ParseNumber(q.limit).value else 0;
    LogFilters(q.username, q.action, q.startDate, q.endDate, limit)
  }

  /** The stored details: parsed JSON, or null when there are none. */
  datatype Details = ParsedDetails(json: string) | NullDetails

  /** A listed entry: the stored entry without its user agent. */
  datatype ListedEntry = ListedEntry(
    id: nat,
    username: string,
    action: string,
    entityType: Option<string>,
    entityId: Option<string>,
    details: Details,
    ipAddress: Option<string>,
    timestamp: int)

  function Listed(e: AuditEntry): (r: ListedEntry)
    ensures r.details.NullDetails? <==> e.details.None? || e.details.value == ""
  {
    ListedEntry(
      e.id, e.username, e.action, e.entityType, e.entityId,
      if e.details.Some? && e.details.value != "" then ParsedDetails(e.details.value) else NullDetails,
      e.ipAddress, e.timestamp)
  }

  datatype ListReply = ListReply(count: nat, logs: seq<ListedEntry>)

  function GetLogs(all: seq<AuditEntry>, q: LogQuery): (r: ListReply)
    ensures r.count == |r.logs|
  {
    var logs := MapSeq(AuditQuery(all, FiltersOf(q)), Listed);
    ListReply(|logs|, logs)
  }

  /** The listing honours exactly the supplied filters: a supplied username
      or action holds for every listed entry, the supplied dates bound it,
      and it is newest first. It is one page of the admitted entries: as
      many as the page holds (100 when no limit is given), every admitted
      entry when they fit, and with a non-negative limit the newest ones. */
  lemma GetLogsMeaning(all: seq<AuditEntry>, q: LogQuery)
    ensures var r := GetLogs(all, q);
      forall i :: 0 <= i < |r.logs| ==>
        (q.username != "" ==> r.logs[i].username == q.username)
        && (q.action != "" ==> r.logs[i].action == q.action)
        && (q.startDate.Some? ==> r.logs[i].timestamp >= q.startDate.value)
        && (q.endDate.Some? ==> r.logs[i].timestamp <= q.endDate.value)
    ensures var r := GetLogs(all, q);
      forall i, j :: 0 <= i < j < |r.logs| ==> r.logs[i].timestamp >= r.logs[j].timestamp
    ensures q.limit == "" ==> GetLogs(all, q).count <= DEFAULT_LIMIT
    ensures var f := FiltersOf(q);
      GetLogs(all, q).count == if PageRows(f) <= Count(all, AdmitsF(f)) then PageRows(f) else Count(all, AdmitsF(f))
    ensures var f := FiltersOf(q);
      Count(all, AdmitsF(f)) <= PageRows(f) ==>
        forall e :: e in all && Admits(f, e) ==> Listed(e) in GetLogs(all, q).logs
    ensures var f := FiltersOf(q); var r := GetLogs(all, q);
      forall e, i :: (e in all && Admits(f, e) && Listed(e) !in r.logs && 0 <= i < |r.logs|) ==>
        if PageSize(f) >= 0 then r.logs[i].timestamp >= e.timestamp else r.logs[i].timestamp <= e.timestamp
  {
    var f := FiltersOf(q);
    AuditQueryMeaning(all, f);
    var found := AuditQuery(all, f);
    var r := GetLogs(all, q);
    assert forall i :: 0 <= i < |found| ==> Listed(found[i]).username == found[i].username;
    forall e | e in found
      ensures Listed(e) in r.logs
    {
      var k :| 0 <= k < |found| && found[k] == e;
      assert r.logs[k] == Listed(e);
    }
  }

  // ---------------------------------------------------------------------------
  // `GET /sessions`

  const SESSION_LIMIT: int := 50

  /** The query for one action within the session history. */
  function SessionFilters(username: string, action: string): LogFilters
  {
    LogFilters(username, action, None, None, SESSION_LIMIT)
  }

  /** A session entry keeps five fields of the audit entry. */
  datatype Session = Session(
    username: string,
    action: string,
    timestamp: int,
    ipAddress: Option<string>,
    userAgent: Option<string>)

  function SessionOf(e: AuditEntry): (r: Session)
    ensures r.username == e.username && r.action == e.action && r.timestamp == e.timestamp
    ensures r.ipAddress == e.ipAddress && r.userAgent == e.userAgent
  {
    Session(e.username, e.action, e.timestamp, e.ipAddress, e.userAgent)
  }

  /** The latest logins and the latest logouts, merged newest first (equal
      timestamps keep logins before logouts). */
  function MergedSessions(all: seq<AuditEntry>, username: string): (r: seq<AuditEntry>)
    ensures multiset(r) == multiset(AuditQuery(all, SessionFilters(username, LOGIN)) + AuditQuery(all, SessionFilters(username, LOGOUT)))
    ensures forall i, j :: 0 <= i < j < |r| ==> r[i].timestamp >= r[j].timestamp
  {
    SortBy(AuditQuery(all, SessionFilters(username, LOGIN)) + AuditQuery(all, SessionFilters(username, LOGOUT)), NewestFirst)
  }

  datatype SessionsReply = SessionsReply(count: nat, sessions: seq<Session>)

  function GetSessions(all: seq<AuditEntry>, username: string): (r: SessionsReply)
    ensures r.count == |r.sessions| == |MergedSessions(all, username)|
    ensures forall i :: 0 <= i < |r.sessions| ==> r.sessions[i] == SessionOf(MergedSessions(all, username)[i])
  {
    var sessions := MapSeq(MergedSessions(all, username), SessionOf);
    SessionsReply(|sessions|, sessions)
  }

  /** A sorted sequence holds the elements of its input. */
  lemma SortByMember<T>(s: seq<T>, key: T -> int, i: nat)
    requires i < |SortBy(s, key)|
    ensures SortBy(s, key)[i] in s
  {
    assert SortBy(s, key)[i] in multiset(SortBy(s, key));
  }

  /** The history is exactly the latest at most 50 logins and the latest
      at most 50 logouts, each entry once per query that lists it, so never
      more than 100 entries. */
  lemma SessionsCount(all: seq<AuditEntry>, username: string)
    ensures var r := GetSessions(all, username);
      r.count <= 2 * SESSION_LIMIT
      && r.count == |AuditQuery(all, SessionFilters(username, LOGIN))| + |AuditQuery(all, SessionFilters(username, LOGOUT))|
    ensures multiset(MergedSessions(all, username))
      == multiset(AuditQuery(all, SessionFilters(username, LOGIN)) + AuditQuery(all, SessionFilters(username, LOGOUT)))
  {
    AuditQueryMeaning(all, SessionFilters(username, LOGIN));
    AuditQueryMeaning(all, SessionFilters(username, LOGOUT));
  }

  /** An entry of the merged history comes from one of the two queries, so
      it is a login or a logout, of the given user when one is named. */
  lemma MergedEntryAction(all: seq<AuditEntry>, username: string, e: AuditEntry)
    requires e in MergedSessions(all, username)
    ensures e.action == LOGIN || e.action == LOGOUT
    ensures username != "" ==> e.username == username
  {
    var logins := AuditQuery(all, SessionFilters(username, LOGIN));
    var logouts := AuditQuery(all, SessionFilters(username, LOGOUT));
    var i :| 0 <= i < |MergedSessions(all, username)| && MergedSessions(all, username)[i] == e;
    SortByMember(logins + logouts, NewestFirst, i);
    if e in logins {
      QueriedAdmitted(all, SessionFilters(username, LOGIN), e);
    } else {
      QueriedAdmitted(all, SessionFilters(username, LOGOUT), e);
    }
  }

  /** Every entry of the history is a login or a logout, of the given user
      when one is named. */
  lemma SessionsActions(all: seq<AuditEntry>, username: string)
    ensures var r := GetSessions(all, username);
      forall i :: 0 <= i < |r.sessions| ==>
        (r.sessions[i].action == LOGIN || r.sessions[i].action == LOGOUT)
        && (username != "" ==> r.sessions[i].username == username)
  {
    var merged := MergedSessions(all, username);
    var r := GetSessions(all, username);
    forall i | 0 <= i < |r.sessions|
      ensures (r.sessions[i].action == LOGIN || r.sessions[i].action == LOGOUT)
        && (username != "" ==> r.sessions[i].username == username)
    {
      MergedEntryAction(all, username, merged[i]);
    }
  }

  /** The history is newest first. */
  lemma SessionsOrder(all: seq<AuditEntry>, username: string)
    ensures var r := GetSessions(all, username);
      forall i, j :: 0 <= i < j < |r.sessions| ==> r.sessions[i].timestamp >= r.sessions[j].timestamp
  {
    var merged := MergedSessions(all, username);
    var r := GetSessions(all, username);
    forall i, j | 0 <= i < j < |r.sessions|
      ensures r.sessions[i].timestamp >= r.sessions[j].timestamp
    {
      assert NewestFirst(merged[i]) <= NewestFirst(merged[j]);
    }
  }
}
