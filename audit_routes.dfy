/** The audit log listing: admin only, filtered by action and/or acting
    user, newest entry first, paginated. */
module AuditRoutes {
  import opened Wrappers
  import opened Auth
  import opened Sequences
  import opened AuditLogModel

  /** The `query` object handed to `find` and `countDocuments`. */
  datatype AuditQuery = AuditQuery(action: Option<string>, userId: Option<UserId>)

  /** Whether the database returns entry `a` for query `q`. */
  predicate Selects(q: AuditQuery, a: AuditEntry) {
    (q.action.Some? ==> ActionName(a.action) == q.action.value)
    && (q.userId.Some? ==> a.userId == q.userId.value)
  }

  function Selecting(q: AuditQuery): AuditEntry -> bool {
    a => Selects(q, a)
  }

  /** The query-string parameters; an empty `action` and an absent `userId`
      mean "no filter", absent `page`/`limit` take their defaults. */
  datatype AuditParams = AuditParams(page: Option<Positive>, limit: Option<Positive>, action: string, userId: Option<UserId>)

  const DefaultAuditPage: Positive := 1
  const DefaultAuditLimit: Positive := 20

  /** What the request asks for: the given action and the given actor. */
  predicate Requested(p: AuditParams, a: AuditEntry) {
    (p.action != "" ==> ActionName(a.action) == p.action)
    && (p.userId.Some? ==> a.userId == p.userId.value)
  }

  function RequestedBy(p: AuditParams): AuditEntry -> bool {
    a => Requested(p, a)
  }

  /** Builds the query by conditional field assignment; it selects exactly
      the entries the request asks for. */
  method BuildAuditQuery(p: AuditParams) returns (q: AuditQuery)
    ensures forall a :: Selects(q, a) <==> Requested(p, a)
  {
    q := AuditQuery(None, None);
    if p.action != "" {
      q := q.(action := Some(p.action));
    }
    if p.userId.Some? {
      q := q.(userId := p.userId);
    }
  }

  /** The response: one page of entries and the pagination block. */
  datatype AuditPage = AuditPage(logs: seq<AuditEntry>, current: nat, pages: nat, total: nat)

  function ByTimestamp(a: AuditEntry): int { a.timestamp }

  /** `a` was written no earlier than `b`. */
  predicate NoOlder(a: AuditEntry, b: AuditEntry) {
    a.timestamp >= b.timestamp
  }

  /** Newest timestamp first. */
  ghost predicate NewestFirst(s: seq<AuditEntry>) {
    forall i, j :: 0 <= i < j < |s| ==> NoOlder(s[i], s[j])
  }

  /** `logs` is page `page` of some newest-first arrangement of `selected`.
      Entries with the same timestamp may come in any order: the database
      promises no order among ties. */
  ghost predicate IsLogPageOf(logs: seq<AuditEntry>, selected: seq<AuditEntry>, page: Positive, limit: Positive) {
    exists sorted :: multiset(sorted) == multiset(selected) && NewestFirst(sorted) && logs == Window(sorted, page, limit)
  }

  /** All selected entries, newest timestamp first. */
  function SortedSelection(entries: seq<AuditEntry>, q: AuditQuery): (r: seq<AuditEntry>)
    ensures multiset(r) == multiset(Filter(entries, Selecting(q)))
    ensures NewestFirst(r)
  {
    var r := SortDesc(Filter(entries, Selecting(q)), ByTimestamp);
    assert forall i, j :: 0 <= i < j < |r| ==> ByTimestamp(r[i]) >= ByTimestamp(r[j]);
    r
  }

  /** A page of the sorted selection holds only selected entries of the
      log, newest first. */
  lemma PageOfSelection(entries: seq<AuditEntry>, q: AuditQuery, page: Positive, limit: Positive)
    ensures forall a :: a in Window(SortedSelection(entries, q), page, limit) ==> a in entries && Selects(q, a)
    ensures NewestFirst(Window(SortedSelection(entries, q), page, limit))
  {
    var sorted := SortedSelection(entries, q);
    WindowIn(sorted, page, limit);
    forall a | a in Window(sorted, page, limit) ensures a in entries && Selects(q, a) {
      assert a in multiset(sorted);
      assert a in Filter(entries, Selecting(q));
    }
    WindowKeepsOrder(sorted, page, limit, NoOlder);
  }

  /** `find(q).sort({ timestamp: -1 }).skip((page - 1) * limit).limit(limit)`
      together with `countDocuments(q)`. */
  function FindAuditEntries(entries: seq<AuditEntry>, q: AuditQuery, page: Positive, limit: Positive): (r: AuditPage)
    ensures forall a :: a in r.logs ==> a in entries && Selects(q, a)
    ensures NewestFirst(r.logs)
    ensures |r.logs| <= limit
    ensures IsLogPageOf(r.logs, Filter(entries, Selecting(q)), page, limit)
    ensures r.total == |Filter(entries, Selecting(q))| && r.current == page
    ensures PageCount(r.pages, r.total, limit)
  {
    var logs := Window(SortedSelection(entries, q), page, limit);
    PageOfSelection(entries, q, page, limit);
    var total := |Filter(entries, Selecting(q))|;
    AuditPage(logs, page, CeilDiv(total, limit), total)
  }

  /** GET /audit. Admin only. Reads only: the log is left as it is. */
  method ListAuditLogs(user: User, log: AuditLog, p: AuditParams) returns (r: Result<AuditPage, AuthError>)
    ensures r.Err? <==> !IsAdmin(user)
    ensures r.Ok? ==>
      var page, limit := p.page.GetOr(DefaultAuditPage), p.limit.GetOr(DefaultAuditLimit);
      && (forall a :: a in r.value.logs ==> a in log.entries && Requested(p, a))
      && NewestFirst(r.value.logs)
      && |r.value.logs| <= limit
      && r.value.current == page
      && r.value.total == |Filter(log.entries, RequestedBy(p))|
      && PageCount(r.value.pages, r.value.total, limit)
      && IsLogPageOf(r.value.logs, Filter(log.entries, RequestedBy(p)), page, limit)
  {
    if !IsAdmin(user) {
      return Err(Forbidden);
    }
    var q := BuildAuditQuery(p);
    FilterExt(log.entries, Selecting(q), RequestedBy(p));
    r := Ok(FindAuditEntries(log.entries, q, p.page.GetOr(DefaultAuditPage), p.limit.GetOr(DefaultAuditLimit)));
  }
}
