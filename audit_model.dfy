/** The audit log collection: its entry schema and the `log` static, the
    only way the core writes to it. */
module AuditLogModel {
  import opened Wrappers
  import opened Calendar
  import opened Schema
  import opened Auth
  import opened ExpenseModel

  datatype Action =
    | UserRegister | UserLogin
    | ExpenseCreated | ExpenseStatusChanged | ExpenseUpdated | ExpenseDeleted

  /** The `enum` list of the `action` path. */
  const ActionNames: seq<string> :=
    ["USER_REGISTER", "USER_LOGIN", "EXPENSE_CREATED", "EXPENSE_STATUS_CHANGED", "EXPENSE_UPDATED", "EXPENSE_DELETED"]

  function ActionName(a: Action): (name: string)
    ensures name in ActionNames
  {
    match a
    case UserRegister => "USER_REGISTER"
    case UserLogin => "USER_LOGIN"
    case ExpenseCreated => "EXPENSE_CREATED"
    case ExpenseStatusChanged => "EXPENSE_STATUS_CHANGED"
    case ExpenseUpdated => "EXPENSE_UPDATED"
    case ExpenseDeleted => "EXPENSE_DELETED"
  }

  /** The action a string denotes, if it is one of the enum values. */
  function ParseAction(s: string): (r: Option<Action>)
    ensures r.Some? <==> s in ActionNames
    ensures r.Some? ==> ActionName(r.value) == s
  {
    if s == "USER_REGISTER" then Some(UserRegister)
    else if s == "USER_LOGIN" then Some(UserLogin)
    else if s == "EXPENSE_CREATED" then Some(ExpenseCreated)
    else if s == "EXPENSE_STATUS_CHANGED" then Some(ExpenseStatusChanged)
    else if s == "EXPENSE_UPDATED" then Some(ExpenseUpdated)
    else if s == "EXPENSE_DELETED" then Some(ExpenseDeleted)
    else None
  }

  /** The `details` payload, one shape per kind of entry the core writes. */
  datatype Details =
    | NoDetails  // `{}`, the default of `log`
    | Created(expenseId: ExpenseId, amount: int, category: Category, date: Date)
    | StatusChanged(expenseId: ExpenseId, oldStatus: Status, newStatus: Option<Status>)

  /** The expense an entry is about, if it is about one. */
  function Subject(d: Details): Option<ExpenseId> {
    match d
    case NoDetails => None
    case Created(id, _, _, _) => Some(id)
    case StatusChanged(id, _, _) => Some(id)
  }

  /** A stored audit entry; `timestamp` is the log's clock reading in
      milliseconds when the entry was written. */
  datatype AuditEntry = AuditEntry(userId: UserId, action: Action, details: Details, timestamp: nat)

  /** Validation of a new entry: `userId` is required; `action` is required
      and must be an enum value. */
  function EntryErrors(action: string, userId: Option<UserId>): (errs: Errors)
    ensures errs == map[] <==> userId.Some? && action in ActionNames
    ensures "userId" in errs <==> userId.None?
    ensures "action" in errs <==> action !in ActionNames
    ensures "userId" in errs ==> errs["userId"] == Required
    ensures "action" in errs ==> errs["action"] == (if action == "" then Required else Enum)
    ensures errs.Keys <= {"userId", "action"}
  {
    var e1: Errors := if userId.None? then map["userId" := Required] else map[];
    assert "" !in ActionNames;
    var e2 := if action == "" then e1["action" := Required]
              else if ParseAction(action).None? then e1["action" := Enum]
              else e1;
    assert "action" in e2 || "userId" in e2 ==> e2 != map[];
    e2
  }

  /** Why `log` threw: the entry failed validation, or the database did not
      accept the insert. */
  datatype LogError = Invalid(errors: Errors) | NotWritten

  class AuditLog {
    /** The collection, oldest insert first. */
    var entries: seq<AuditEntry>
    /** The server's clock (`new Date()`), in milliseconds. */
    var clock: nat

    constructor ()
      ensures entries == [] && clock == 0
    {
      entries := [];
      clock := 0;
    }

    /** Time passes: the clock now reads `now`. The log does not assume the
        clock is monotonic. */
    method Tick(now: nat)
      modifies this`clock
      ensures clock == now
    {
      clock := now;
    }

    /** `AuditLog.log(action, userId, details = {})`. The entry is stamped
        with the log's own clock, never with a caller-supplied time. On
        success exactly one entry is appended and every earlier entry is left
        as it was; on failure nothing is appended. `written` is whether the
        database accepts the insert. */
    method Log(action: string, userId: Option<UserId>, written: bool, details: Details := NoDetails)
      returns (r: Result<AuditEntry, LogError>)
      modifies this`entries
      ensures r.Ok? <==> EntryErrors(action, userId) == map[] && written
      ensures r.Ok? ==>
        && r.value == AuditEntry(userId.value, ParseAction(action).value, details, clock)
        && ActionName(r.value.action) == action
        && entries == old(entries) + [r.value]
      ensures r.Err? ==> entries == old(entries)
      ensures r.Err? && EntryErrors(action, userId) != map[] ==> r.error == Invalid(EntryErrors(action, userId))
      ensures r.Err? && EntryErrors(action, userId) == map[] ==> r.error == NotWritten
    {
      var errs := EntryErrors(action, userId);
      if errs != map[] {
        return Err(Invalid(errs));
      }
      if !written {
        return Err(NotWritten);
      }
      var entry := AuditEntry(userId.value, ParseAction(action).value, details, clock);
      entries := entries + [entry];
      r := Ok(entry);
    }
  }
}
