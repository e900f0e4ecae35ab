/** The expense routes: create, list, status update and the two analytics
    reads, over an in-memory expense collection and the audit log. */
module ExpenseRoutes {
  import opened Wrappers
  import opened Calendar
  import opened Schema
  import opened Auth
  import opened Sequences
  import opened ExpenseModel
  import opened AuditLogModel
  import opened Aggregation

  // ------------------------------------------------------------ the query

  /** The `$gte`/`$lte` bounds of the `date` condition. */
  datatype DateRange = DateRange(gte: Option<Date>, lte: Option<Date>)

  /** The `query` object handed to `find` and `countDocuments`; an absent
      field places no condition. */
  datatype ExpenseQuery = ExpenseQuery(
    userId: Option<UserId>,
    status: Option<string>,
    category: Option<string>,
    date: Option<DateRange>)

  /** Whether the database returns `e` for query `q`: equality on each
      given field, inclusive bounds on the date. */
  predicate Matches(q: ExpenseQuery, e: Expense) {
    && (q.userId.Some? ==> e.userId == q.userId.value)
    && (q.status.Some? ==> HasStatus(e, q.status.value))
    && (q.category.Some? ==> InCategory(e, q.category.value))
    && (q.date.Some? ==>
          && (q.date.value.gte.Some? ==> DateLe(q.date.value.gte.value, e.date))
          && (q.date.value.lte.Some? ==> DateLe(e.date, q.date.value.lte.value)))
  }

  function Matching(q: ExpenseQuery): Expense -> bool {
    e => Matches(q, e)
  }

  /** What a listing request may return: for a non-admin only the caller's
      own expenses, whatever the filters say, and of those the ones that
      satisfy the filters. */
  predicate Visible(user: User, c: Criteria, e: Expense) {
    (!IsAdmin(user) ==> e.userId == user.id) && Satisfies(e, c)
  }

  function VisibleTo(user: User, c: Criteria): Expense -> bool {
    e => Visible(user, c, e)
  }

  /** Builds the listing query field by field: the owner condition for
      non-admins, then each non-empty filter. The query selects exactly the
      expenses the request may see. */
  method BuildExpenseQuery(user: User, c: Criteria) returns (q: ExpenseQuery)
    ensures forall e :: Matches(q, e) <==> Visible(user, c, e)
    ensures IsAdmin(user) <==> q.userId.None?
  {
    q := ExpenseQuery(None, None, None, None);
    if !IsAdmin(user) {
      q := q.(userId := Some(user.id));
    }
    if c.status != "" {
      q := q.(status := Some(c.status));
    }
    if c.category != "" {
      q := q.(category := Some(c.category));
    }
    if c.startDate.Some? || c.endDate.Some? {
      var range := DateRange(None, None);
      if c.startDate.Some? {
        range := range.(gte := c.startDate);
      }
      if c.endDate.Some? {
        range := range.(lte := c.endDate);
      }
      q := q.(date := Some(range));
    }
  }

  // ---------------------------------------------------------- the listing

  /** The response of the listing: one page of expenses and the pagination
      block. */
  datatype ExpensePage = ExpensePage(expenses: seq<Expense>, page: nat, pages: nat, total: nat)

  const DefaultExpensePage: Positive := 1
  const DefaultExpenseLimit: Positive := 10

  function ByDate(e: Expense): int { DateKey(e.date) }

  /** `a` is dated no earlier than `b`. */
  predicate NoEarlier(a: Expense, b: Expense) {
    DateLe(b.date, a.date)
  }

  /** Newest date first. */
  ghost predicate LatestFirst(s: seq<Expense>) {
    forall i, j :: 0 <= i < j < |s| ==> NoEarlier(s[i], s[j])
  }

  /** `items` is page `page` of some newest-first arrangement of `matches`.
      Expenses with the same date may come in any order: the sort key is
      not unique and the database promises no order among ties. */
  ghost predicate IsPageOf(items: seq<Expense>, matches: seq<Expense>, page: Positive, limit: Positive) {
    exists sorted :: multiset(sorted) == multiset(matches) && LatestFirst(sorted) && items == Window(sorted, page, limit)
  }

  /** All matches of `q`, newest date first. */
  function SortedMatches(all: seq<Expense>, q: ExpenseQuery): (r: seq<Expense>)
    ensures multiset(r) == multiset(Filter(all, Matching(q)))
    ensures LatestFirst(r)
  {
    var r := SortDesc(Filter(all, Matching(q)), ByDate);
    assert forall i, j :: 0 <= i < j < |r| ==> DateKey(r[j].date) <= DateKey(r[i].date);
    forall i, j | 0 <= i < j < |r| ensures DateLe(r[j].date, r[i].date) {
      DateKeyOrder(r[j].date, r[i].date);
    }
    r
  }

  /** `find(q).sort({ date: -1 }).skip((page - 1) * limit).limit(limit)`
      together with `countDocuments(q)`. */
  function FindExpenses(all: seq<Expense>, q: ExpenseQuery, page: Positive, limit: Positive): (r: ExpensePage)
    ensures forall e :: e in r.expenses ==> e in all && Matches(q, e)
    ensures LatestFirst(r.expenses)
    ensures |r.expenses| <= limit
    ensures IsPageOf(r.expenses, Filter(all, Matching(q)), page, limit)
    ensures r.total == |Filter(all, Matching(q))| && r.page == page
    ensures PageCount(r.pages, r.total, limit)
  {
    var sorted := SortedMatches(all, q);
    var items := Window(sorted, page, limit);
    PageOfMatches(all, q, page, limit);
    var total := |Filter(all, Matching(q))|;
    ExpensePage(items, page, CeilDiv(total, limit), total)
  }

  /** A page of the sorted matches holds only matches, newest first. */
  lemma PageOfMatches(all: seq<Expense>, q: ExpenseQuery, page: Positive, limit: Positive)
    ensures forall e :: e in Window(SortedMatches(all, q), page, limit) ==> e in all && Matches(q, e)
    ensures LatestFirst(Window(SortedMatches(all, q), page, limit))
  {
    var sorted := SortedMatches(all, q);
    var items := Window(sorted, page, limit);
    WindowIn(sorted, page, limit);
    forall e | e in items ensures e in all && Matches(q, e) {
      assert e in multiset(sorted);
      assert e in Filter(all, Matching(q));
    }
    WindowKeepsOrder(sorted, page, limit, NoEarlier);
  }

  // ----------------------------------------------------------- the system

  /** The errors a route reports. */
  datatype ExpenseError =
    | Denied(reason: AuthError)     // the admin-only guard rejected the caller
    | NotFound                      // no expense has the requested id
    | ValidationFailed(errors: Errors) // the document failed validation on save
    | AuditFailed(cause: LogError)  // the change was saved, the audit entry was not

  /** The body of a create request: the four fields the handler reads, and
      fields a client may add that the handler ignores. */
  datatype CreateBody = CreateBody(
    amount: Option<int>,
    category: Option<string>,
    date: Option<Date>,
    notes: Option<string>,
    status: Option<string>,
    userId: Option<UserId>,
    approvedBy: Option<UserId>)

  /** The document the create handler builds: owner from the session,
      amount/category/date/notes from the body, and nothing else. */
  function CreateDoc(user: User, body: CreateBody): ExpenseDoc {
    NewExpenseDoc(user.id, body.amount, body.category, body.date, body.notes)
  }

  /** The position of the expense with id `id`, if there is one. */
  function IndexOf(expenses: seq<Expense>, id: ExpenseId): (r: Option<nat>)
    ensures r.Some? ==> r.value < |expenses| && expenses[r.value].id == id
    ensures r.None? ==> forall e :: e in expenses ==> e.id != id
  {
    if expenses == [] then None
    else if expenses[0].id == id then Some(0)
    else
      var r := IndexOf(expenses[1..], id);
      if r.Some? then Some(r.value + 1) else None
  }

  /** What a status update writes into an expense. */
  function WithStatus(e: Expense, status: Option<Status>, admin: UserId): Expense {
    e.(status := status, approvedBy := Some(admin))
  }

  /** The status a request body names, or none when the body has none. */
  function RequestedStatus(status: Option<string>): Option<Status> {
    if status.Some? then ParseStatus(status.value) else None
  }

  /** The document a status update saves: the stored one with the body's
      status and the caller as approver. */
  function StatusDoc(e: Expense, status: Option<string>, admin: UserId): ExpenseDoc {
    ToDoc(e).(status := status, approvedBy := Some(admin))
  }

  /** Saving a status update of a valid expense fails on the status path
      alone when the status is outside the enum, and otherwise stores the
      expense with the new status and approver and nothing else changed. */
  lemma SaveStatus(e: Expense, status: Option<string>, admin: UserId)
    requires ValidExpense(e)
    ensures status.Some? && status.value !in StatusNames ==>
      Validate(e.id, StatusDoc(e, status, admin)) == Err(map["status" := Enum])
    ensures (status.Some? ==> status.value in StatusNames) ==>
      && Validate(e.id, StatusDoc(e, status, admin)) == Ok(WithStatus(e, RequestedStatus(status), admin))
      && ValidExpense(WithStatus(e, RequestedStatus(status), admin))
  {
    var doc := StatusDoc(e, status, admin);
    ValidateRoundTrip(e);
    if status.Some? && status.value !in StatusNames {
      assert ValidationErrors(doc).Keys == {"status"};
      assert ValidationErrors(doc) == map["status" := Enum];
    }
  }

  class ExpenseSystem {
    /** The expense collection, in insertion order. */
    var expenses: seq<Expense>
    /** The id the next stored expense receives. */
    var nextId: ExpenseId
    /** The audit log collection. */
    const audit: AuditLog

    /** Every stored expense conforms to the schema and has its own id,
        below `nextId`, and every audit entry about an expense names an id
        already handed out. */
    ghost predicate Valid()
      reads this, audit
    {
      && (forall i :: 0 <= i < |expenses| ==> ValidExpense(expenses[i]) && expenses[i].id < nextId)
      && (forall i, j :: 0 <= i < j < |expenses| ==> expenses[i].id != expenses[j].id)
      && (forall a :: a in audit.entries && Subject(a.details).Some? ==> Subject(a.details).value < nextId)
    }

    constructor ()
      ensures Valid() && expenses == [] && fresh(audit) && audit.entries == []
    {
      expenses := [];
      nextId := 0;
      audit := new AuditLog();
    }

    /** POST /expenses. Builds the document from the session and the body,
        validates and stores it, then appends an EXPENSE_CREATED entry. A
        document that fails validation stores nothing and logs nothing; an
        audit write that fails after the save does not undo it. */
    method Create(user: User, body: CreateBody, auditWritten: bool) returns (r: Result<Expense, ExpenseError>)
      requires Valid()
      modifies this, audit`entries
      ensures Valid()
      ensures old(audit.entries) <= audit.entries
      ensures !Conforms(CreateDoc(user, body)) ==>
        && r == Err(ValidationFailed(ValidationErrors(CreateDoc(user, body))))
        && expenses == old(expenses) && nextId == old(nextId) && audit.entries == old(audit.entries)
      ensures Conforms(CreateDoc(user, body)) ==>
        && |expenses| == |old(expenses)| + 1
        && expenses[..|old(expenses)|] == old(expenses)
        && var e := expenses[|old(expenses)|];
        && e.id == old(nextId) && e !in old(expenses)
        && (forall a :: a in old(audit.entries) ==> Subject(a.details) != Some(e.id))
        && e.userId == user.id && e.status == Some(Pending) && e.approvedBy == None
        && body.amount == Some(e.amount) && body.category == Some(CategoryName(e.category))
        && body.date == Some(e.date) && body.notes == e.notes
        && (auditWritten ==>
              && r == Ok(e)
              && audit.entries == old(audit.entries) +
                   [AuditEntry(user.id, ExpenseCreated, Created(e.id, e.amount, e.category, e.date), audit.clock)])
        && (!auditWritten ==> r == Err(AuditFailed(NotWritten)) && audit.entries == old(audit.entries))
    {
      var doc := CreateDoc(user, body);
      var saved := Validate(nextId, doc);
      if saved.Err? {
        return Err(ValidationFailed(saved.error));
      }
      var e := saved.value;
      assert e !in expenses;
      expenses := expenses + [e];
      nextId := nextId + 1;
      var logged := audit.Log("EXPENSE_CREATED", Some(user.id), auditWritten,
                              Created(e.id, e.amount, e.category, e.date));
      if logged.Err? {
        return Err(AuditFailed(logged.error));
      }
      r := Ok(e);
    }

    /** GET /expenses, with `page` and `limit` defaulting to 1 and 10. Reads
        only: the collection and the log are left as they are. */
    method List(user: User, c: Criteria, page: Option<Positive>, limit: Option<Positive>) returns (r: ExpensePage)
      ensures forall e :: e in r.expenses ==> e in expenses && Satisfies(e, c)
      ensures !IsAdmin(user) ==> forall e :: e in r.expenses ==> e.userId == user.id
      ensures LatestFirst(r.expenses)
      ensures |r.expenses| <= limit.GetOr(DefaultExpenseLimit)
      ensures r.page == page.GetOr(DefaultExpensePage)
      ensures r.total == |Filter(expenses, VisibleTo(user, c))|
      ensures var n := limit.GetOr(DefaultExpenseLimit);
        PageCount(r.pages, r.total, n)
      ensures IsPageOf(r.expenses, Filter(expenses, VisibleTo(user, c)), page.GetOr(DefaultExpensePage), limit.GetOr(DefaultExpenseLimit))
    {
      var q := BuildExpenseQuery(user, c);
      FilterExt(expenses, Matching(q), VisibleTo(user, c));
      r := FindExpenses(expenses, q, page.GetOr(DefaultExpensePage), limit.GetOr(DefaultExpenseLimit));
    }

    /** PATCH /expenses/:id/status. Admin only. Sets the status to whatever
        the body says (any enum value, or none at all, from any current
        status) and overwrites the approver with the caller, saves, then
        appends an EXPENSE_STATUS_CHANGED entry holding the previous status as
        loaded (a cleared status reads as `pending`) and the new status, and
        answers with the expense as loaded again. Nothing changes when the caller is not an admin, the id
        is unknown, or the status is outside the enum. */
    method UpdateStatus(user: User, id: ExpenseId, status: Option<string>, auditWritten: bool)
      returns (r: Result<Expense, ExpenseError>)
      requires Valid()
      modifies this`expenses, audit`entries
      ensures Valid()
      ensures old(audit.entries) <= audit.entries
      ensures !IsAdmin(user) ==> r == Err(Denied(Forbidden))
      ensures IsAdmin(user) && IndexOf(old(expenses), id).None? ==> r == Err(NotFound)
      ensures IsAdmin(user) && IndexOf(old(expenses), id).Some? && status.Some? && status.value !in StatusNames ==>
        r == Err(ValidationFailed(map["status" := Enum]))
      ensures r.Err? && !r.error.AuditFailed? ==>
        expenses == old(expenses) && audit.entries == old(audit.entries)
      ensures IsAdmin(user) && IndexOf(old(expenses), id).Some? && (status.Some? ==> status.value in StatusNames) ==>
        && var i := IndexOf(old(expenses), id).value;
        && var newStatus := RequestedStatus(status);
        && var updated := WithStatus(old(expenses)[i], newStatus, user.id);
        && expenses == old(expenses)[i := updated]
        && (status.Some? ==> StatusName(updated.status.value) == status.value)
        && (auditWritten ==>
              && r == Ok(Loaded(updated))
              && audit.entries == old(audit.entries) +
                   [AuditEntry(user.id, ExpenseStatusChanged, StatusChanged(id, LoadedStatus(old(expenses)[i]), newStatus), audit.clock)])
        && (!auditWritten ==> r == Err(AuditFailed(NotWritten)) && audit.entries == old(audit.entries))
    {
      if !IsAdmin(user) {
        return Err(Denied(Forbidden));
      }
      var found := IndexOf(expenses, id);
      if found.None? {
        return Err(NotFound);
      }
      var i := found.value;
      var e := expenses[i];
      var saved := Validate(e.id, StatusDoc(e, status, user.id));
      SaveStatus(e, status, user.id);
      if saved.Err? {
        return Err(ValidationFailed(saved.error));
      }
      var newStatus := RequestedStatus(status);
      expenses := expenses[i := saved.value];
      var logged := audit.Log("EXPENSE_STATUS_CHANGED", Some(user.id), auditWritten,
                              StatusChanged(e.id, LoadedStatus(e), newStatus));
      if logged.Err? {
        return Err(AuditFailed(logged.error));
      }
      r := Ok(Loaded(saved.value));
    }

    /** GET /expenses/analytics/category. Admin only; reads only. */
    method CategoryAnalytics(user: User) returns (r: Result<seq<Row<Category>>, AuthError>)
      ensures r.Err? <==> !IsAdmin(user)
      ensures r.Ok? ==> IsCategoryTotals(r.value, expenses)
      ensures r.Ok? ==> multiset(r.value) == multiset(CategoryTotals(expenses))
    {
      if !IsAdmin(user) {
        return Err(Forbidden);
      }
      r := Ok(CategoryTotals(expenses));
    }

    /** GET /expenses/analytics/trends. Admin only; reads only. */
    method TrendAnalytics(user: User) returns (r: Result<seq<Row<YearMonth>>, AuthError>)
      ensures r.Err? <==> !IsAdmin(user)
      ensures r.Ok? ==> r.value == MonthlyTrends(expenses)
    {
      if !IsAdmin(user) {
        return Err(Forbidden);
      }
      r := Ok(MonthlyTrends(expenses));
    }
  }
}
