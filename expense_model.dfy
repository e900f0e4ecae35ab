/** The expense document and its schema constraints. */
module ExpenseModel {
  import opened Wrappers
  import opened Calendar
  import opened Schema
  import opened Auth

  type ExpenseId = nat

  datatype Category = Travel | Food | OfficeSupplies | Software | Equipment | Training | Other

  datatype Status = Pending | Approved | Rejected

  /** The `enum` list of the `category` path. */
  const CategoryNames: seq<string> :=
    ["Travel", "Food", "Office Supplies", "Software", "Equipment", "Training", "Other"]

  /** The `enum` list of the `status` path. */
  const StatusNames: seq<string> := ["pending", "approved", "rejected"]

  /** The `default` of the `status` path. */
  const DefaultStatus: string := "pending"

  /** The `maxlength` of the `notes` path. */
  const MaxNotesLength: nat := 500

  function CategoryName(c: Category): (name: string)
    ensures name in CategoryNames
  {
    match c
    case Travel => "Travel"
    case Food => "Food"
    case OfficeSupplies => "Office Supplies"
    case Software => "Software"
    case Equipment => "Equipment"
    case Training => "Training"
    case Other => "Other"
  }

  /** The category a stored string denotes, if it is one of the enum values. */
  function ParseCategory(s: string): (r: Option<Category>)
    ensures r.Some? <==> s in CategoryNames
    ensures r.Some? ==> CategoryName(r.value) == s
  {
    if s == "Travel" then Some(Travel)
    else if s == "Food" then Some(Food)
    else if s == "Office Supplies" then Some(OfficeSupplies)
    else if s == "Software" then Some(Software)
    else if s == "Equipment" then Some(Equipment)
    else if s == "Training" then Some(Training)
    else if s == "Other" then Some(Other)
    else None
  }

  function StatusName(s: Status): (name: string)
    ensures name in StatusNames
  {
    match s
    case Pending => "pending"
    case Approved => "approved"
    case Rejected => "rejected"
  }

  /** The status a string denotes, if it is one of the enum values. */
  function ParseStatus(s: string): (r: Option<Status>)
    ensures r.Some? <==> s in StatusNames
    ensures r.Some? ==> StatusName(r.value) == s
  {
    if s == "pending" then Some(Pending)
    else if s == "approved" then Some(Approved)
    else if s == "rejected" then Some(Rejected)
    else None
  }

  /** Names and enum values correspond one to one. */
  lemma NamesRoundTrip(c: Category, s: Status)
    ensures ParseCategory(CategoryName(c)) == Some(c)
    ensures ParseStatus(StatusName(s)) == Some(s)
  {
  }

  /** A stored expense. Amounts are integer cents. `status` is absent only
      when a status update cleared it; `approvedBy` is absent until the first
      status update. The `createdAt`/`updatedAt` timestamps are not modelled. */
  datatype Expense = Expense(
    id: ExpenseId,
    userId: UserId,
    amount: int,
    category: Category,
    date: Date,
    notes: Option<string>,
    status: Option<Status>,
    approvedBy: Option<UserId>)

  /** The status mongoose reports when it loads a stored expense: a status
      that an update cleared reads as the schema default. */
  function LoadedStatus(e: Expense): (s: Status)
    ensures e.status.Some? ==> s == e.status.value
    ensures e.status.None? ==> StatusName(s) == DefaultStatus
  {
    if e.status.Some? then e.status.value else Pending
  }

  /** A stored expense as mongoose loads it, with the `status` default
      filled in; every other field is read as stored. */
  function Loaded(e: Expense): (l: Expense)
    ensures l.status == Some(LoadedStatus(e))
    ensures l.(status := e.status) == e
  {
    e.(status := Some(LoadedStatus(e)))
  }

  /** The schema constraints that the field types of `Expense` do not
      already enforce. */
  predicate ValidExpense(e: Expense) {
    e.amount >= 0 && (e.notes.Some? ==> Utf16Length(e.notes.value) <= MaxNotesLength)
  }

  /** An expense document before validation: every path as it was set,
      possibly absent, and strings not yet checked against their enums. */
  datatype ExpenseDoc = ExpenseDoc(
    userId: Option<UserId>,
    amount: Option<int>,
    category: Option<string>,
    date: Option<Date>,
    notes: Option<string>,
    status: Option<string>,
    approvedBy: Option<UserId>)

  /** `new Expense({ userId, amount, category, date, notes })`: the given
      paths, the `status` default, and no approver. */
  function NewExpenseDoc(userId: UserId, amount: Option<int>, category: Option<string>,
                         date: Option<Date>, notes: Option<string>): ExpenseDoc
  {
    ExpenseDoc(Some(userId), amount, category, date, notes, Some(DefaultStatus), None)
  }

  /** The document a stored expense is saved as. */
  function ToDoc(e: Expense): ExpenseDoc {
    ExpenseDoc(Some(e.userId), Some(e.amount), Some(CategoryName(e.category)), Some(e.date), e.notes,
               if e.status.Some? then Some(StatusName(e.status.value)) else None, e.approvedBy)
  }

  /** The schema, as a property of a document: the required paths are
      present, the amount is not negative, category and status are enum
      values (status may be absent), and notes are at most 500 UTF-16 code
      units long. */
  predicate Conforms(d: ExpenseDoc) {
    && d.userId.Some?
    && d.amount.Some? && d.amount.value >= 0
    && d.category.Some? && d.category.value in CategoryNames
    && d.date.Some?
    && (d.notes.Some? ==> Utf16Length(d.notes.value) <= MaxNotesLength)
    && (d.status.Some? ==> d.status.value in StatusNames)
  }

  /** The paths of the expense schema that carry validators. */
  const ExpensePaths: set<string> := {"userId", "amount", "category", "date", "notes", "status"}

  /** The first validator of `path` that rejects the document, if any
      (`required` runs before the others). */
  function PathViolation(d: ExpenseDoc, path: string): Option<Violation> {
    if path == "userId" then
      if d.userId.None? then Some(Required) else None
    else if path == "amount" then
      if d.amount.None? then Some(Required) else if d.amount.value < 0 then Some(Min) else None
    else if path == "category" then
      if d.category.None? || d.category.value == "" then Some(Required)
      else if ParseCategory(d.category.value).None? then Some(Enum)
      else None
    else if path == "date" then
      if d.date.None? then Some(Required) else None
    else if path == "notes" then
      if d.notes.Some? && Utf16Length(d.notes.value) > MaxNotesLength then Some(MaxLength) else None
    else if path == "status" then
      if d.status.Some? && ParseStatus(d.status.value).None? then Some(Enum) else None
    else None
  }

  /** What mongoose reports when it validates `d` on save: every failing
      path with its first failing validator. */
  function ValidationErrors(d: ExpenseDoc): (errs: Errors)
    ensures errs.Keys <= ExpensePaths
    ensures "userId" in errs <==> d.userId.None?
    ensures "amount" in errs <==> d.amount.None? || d.amount.value < 0
    ensures "category" in errs <==> d.category.None? || d.category.value !in CategoryNames
    ensures "date" in errs <==> d.date.None?
    ensures "notes" in errs <==> d.notes.Some? && Utf16Length(d.notes.value) > MaxNotesLength
    ensures "status" in errs <==> d.status.Some? && d.status.value !in StatusNames
    ensures "amount" in errs && d.amount.Some? ==> errs["amount"] == Min
    ensures "category" in errs && d.category.Some? && d.category.value != "" ==> errs["category"] == Enum
    ensures "status" in errs ==> errs["status"] == Enum
    ensures "userId" in errs ==> errs["userId"] == Required
    ensures "date" in errs ==> errs["date"] == Required
    ensures d.amount.None? ==> errs["amount"] == Required
    ensures d.category.None? || d.category == Some("") ==> errs["category"] == Required
    ensures "notes" in errs ==> errs["notes"] == MaxLength
  {
    assert "" !in CategoryNames;
    map p | p in ExpensePaths && PathViolation(d, p).Some? :: PathViolation(d, p).value
  }

  /** Validation passes exactly on the documents that conform to the schema. */
  lemma NoErrorsIffConforms(d: ExpenseDoc)
    ensures ValidationErrors(d) == map[] <==> Conforms(d)
  {
    var errs := ValidationErrors(d);
    if !Conforms(d) {
      assert "userId" in errs || "amount" in errs || "category" in errs
          || "date" in errs || "notes" in errs || "status" in errs;
    }
  }

  /** `save()`: a document that passes validation becomes the stored expense
      with id `id`; one that fails is reported with its errors. */
  function Validate(id: ExpenseId, d: ExpenseDoc): (r: Result<Expense, Errors>)
    ensures r.Ok? <==> Conforms(d)
    ensures r.Ok? ==> ValidExpense(r.value) && r.value.id == id && ToDoc(r.value) == d
    ensures r.Err? ==> r.error == ValidationErrors(d) && r.error != map[]
  {
    NoErrorsIffConforms(d);
    if ValidationErrors(d) != map[] then Err(ValidationErrors(d))
    else
      Ok(Expense(id, d.userId.value, d.amount.value, ParseCategory(d.category.value).value, d.date.value,
                 d.notes, if d.status.Some? then ParseStatus(d.status.value) else None, d.approvedBy))
  }

  /** Every valid expense is accepted back from the document it is saved as:
      validation loses nothing and rejects no stored record. */
  lemma {:induction false} ValidateRoundTrip(e: Expense)
    requires ValidExpense(e)
    ensures Validate(e.id, ToDoc(e)) == Ok(e)
  {
    NamesRoundTrip(e.category, if e.status.Some? then e.status.value else Pending);
  }

  // ------------------------------------------------ the expense list filters

  /** The four filter fields of the expense listing, both on the server's
      query string and in the client's filter form. An empty string and an
      absent date mean "no filter". */
  datatype Criteria = Criteria(status: string, category: string, startDate: Option<Date>, endDate: Option<Date>)

  /** The criteria with every field empty. */
  const NoCriteria := Criteria("", "", None, None)

  predicate HasStatus(e: Expense, status: string) {
    e.status.Some? && StatusName(e.status.value) == status
  }

  predicate InCategory(e: Expense, category: string) {
    CategoryName(e.category) == category
  }

  /** What the filters mean: each non-empty field restricts the list, and
      both date bounds are inclusive. */
  predicate Satisfies(e: Expense, c: Criteria) {
    && (c.status != "" ==> HasStatus(e, c.status))
    && (c.category != "" ==> InCategory(e, c.category))
    && (c.startDate.Some? ==> DateLe(c.startDate.value, e.date))
    && (c.endDate.Some? ==> DateLe(e.date, c.endDate.value))
  }
}
