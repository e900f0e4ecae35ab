# Expense tracker core, modelled in Dafny

This project models the core of an expense-tracking web application. Employees submit expenses. Administrators approve or reject them, read spending analytics and browse an audit log of every action. The model covers the following parts:

- **The expense document** (`ExpenseModel`). It holds the owner, an amount, one of seven categories, a date, optional notes, a status (`pending`/`approved`/`rejected`, default `pending`) and the approver. Mongoose validation on save is modelled as a map from each failing path to its first failing validator. Documents are validated by `Validate`.
- **The audit log** (`AuditLogModel`). An entry holds the acting user, one of six actions, a details payload and a timestamp. The `log` static is the method `AuditLog.Log` of a class whose fields are the stored entries and the server clock.
- **The expense routes** (`ExpenseRoutes`). The class `ExpenseSystem` holds the expense collection and the audit log:
  - `Create` is POST /expenses;
  - `List` is GET /expenses, with the owner restriction for non-admins, the status/category/date filters, newest-date-first order and pagination;
  - `UpdateStatus` is PATCH /expenses/:id/status;
  - `CategoryAnalytics` and `TrendAnalytics` are the two admin-only aggregations.
- **The analytics pipelines** (`Aggregation`). Each is `$match` on approved expenses, then `$group` with a `$sum` of amounts and a count, then `$sort`.
- **The audit listing** (`AuditRoutes`). GET /audit is admin only, filters by action and actor, puts the newest entry first and is paginated.
- **The client-side expense list** (`ExpenseListView`). It is a class with the `expenses` prop and the `filteredExpenses` state. `HandleFilter` recomputes the view from the full list. `ExpensesChanged` is the effect that resets the view when a new list arrives.

Generic sequence machinery lives in `Sequences`:
- filtering;
- a descending insertion sort by an integer key;
- skip/limit windows;
- the `Math.ceil(total / limit)` page count.

Dates and their chronological order are in `Calendar`, and the requesting user is in `Auth`.

The model follows what the code does, including where it allows more than the interface offers. For example, the expense card shows Approve/Reject only for pending expenses (`frontend/src/components/Expenses/ExpenseCard.jsx:58`), but the route accepts any status change:
- The status update has no state machine. Any enum value may be set from any current status, including `pending` again and a change away from `approved` or `rejected`.
- The status update always overwrites `approvedBy` with the caller, also when the new status is `pending`. The invariant "`approvedBy` is unset while pending" therefore does not hold after an update, and the model does not claim it.
- A status update whose body has no `status` clears the stored field (`expense.status = undefined`). This is why `Expense.status` is an `Option`. The database's own status filter sees the field as unset. When mongoose loads the document it fills in the `pending` default (`Loaded`).
- Validation rejects an unknown status with an `enum` error on the `status` path only. Nothing is changed and nothing is logged.
- Create stores exactly the four body fields `amount`, `category`, `date` and `notes`. Any `status`, `userId` or `approvedBy` in the body is ignored. The owner comes from the session.
- An audit write that fails after a successful save does not undo the save. The route then answers with an error although the expense is stored.

## Model

| member | source | states |
|---|---|---|
| Calendar.DateKeyOrder | backend/routes/expenses.js:64 | comparing the integer day keys is the same as comparing dates chronologically, so sorting by key sorts by date |
| Calendar.MonthKeyOrder | backend/routes/expenses.js:151 | comparing month keys orders (year, month) by year and then month, and equal keys mean equal months |
| Sequences.Filter | frontend/src/components/Expenses/ExpenseList.jsx:21-23 | the result is no longer than the input, and every element of it is from the input and passes the predicate |
| Sequences.FilterCount | frontend/src/components/Expenses/ExpenseList.jsx:21-23 | an element that passes is kept exactly as often as it occurs; one that fails occurs zero times |
| Sequences.FilterIsSubsequence | frontend/src/components/Expenses/ExpenseList.jsx:21-23 | filtering keeps the input's relative order: the result is a subsequence of the input |
| Sequences.FilterAll | frontend/src/components/Expenses/ExpenseList.jsx:19 | a predicate that accepts everything keeps the whole list |
| Sequences.FilterExt | backend/routes/expenses.js:61 | predicates that agree on every element give the same result |
| Sequences.FilterThenFilter | frontend/src/components/Expenses/ExpenseList.jsx:21-39 | filtering by p and then by q equals filtering once by their conjunction |
| Sequences.FilterSnocRejected | backend/routes/expenses.js:119 | appending an element that fails the predicate leaves the result unchanged |
| Sequences.Insert | backend/routes/expenses.js:64 | insertion adds exactly one element, and the result is a permutation of the input plus it |
| Sequences.InsertSorted | backend/routes/expenses.js:64 | inserting into a list sorted by non-increasing key keeps it sorted |
| Sequences.SortDesc | backend/routes/expenses.js:64 | the result is a permutation of the input (same multiset) in non-increasing key order |
| Sequences.SortInjective | backend/routes/expenses.js:127 | sorting keeps a property's values pairwise distinct when they were so before |
| Sequences.SortSum | backend/routes/expenses.js:127 | sorting does not change the sum of any per-element quantity |
| Sequences.PageCountUnique | backend/routes/expenses.js:74 | at most one page count both covers the total and cannot lose a page, so that count is the ceiling of total / limit |
| Sequences.CeilDiv | backend/routes/expenses.js:74 | the page count covers the total and one page fewer would not (the ceiling of total / limit) |
| Sequences.Window | backend/routes/expenses.js:59-66 | page `page` holds at most `limit` items: exactly the items after the first (page-1)*limit, and as many as remain up to `limit` |
| Sequences.WindowKeepsOrder | backend/routes/expenses.js:64-66 | a page of a list keeps any order that holds between each earlier and each later element, so a page of a newest-first list is newest first |
| Sequences.PagesPartition | backend/routes/expenses.js:59-74 | for one fixed arrangement of the result, pages 1 to ceil(total/limit) concatenated give it back in order, and every later page is empty |
| Schema.Utf16Length | backend/models/Expense.js:25 | the JavaScript `length` of a string counts UTF-16 code units: at least one and at most two per character |
| Schema.Utf16LengthBmp | backend/models/Expense.js:25 | the code-unit length equals the character count exactly when every character lies in the Basic Multilingual Plane |
| ExpenseModel.CategoryName | backend/models/Expense.js:14-18 | every category is written as one of the seven enum strings |
| ExpenseModel.ParseCategory | backend/models/Expense.js:14-18 | a string denotes a category exactly when it is in the enum list, and that category is written back as the same string |
| ExpenseModel.StatusName | backend/models/Expense.js:27-31 | every status is written as one of the three enum strings |
| ExpenseModel.ParseStatus | backend/models/Expense.js:27-31 | a string denotes a status exactly when it is in the enum list, and that status is written back as the same string |
| ExpenseModel.NamesRoundTrip | backend/models/Expense.js:14-31 | parsing the name of a category or a status gives it back |
| ExpenseModel.LoadedStatus | backend/models/Expense.js:27-31 | a loaded expense reports its stored status, and a status that an update cleared reads as the schema default `pending` |
| ExpenseModel.Loaded | backend/routes/expenses.js:105-107 | re-reading a stored expense fills in the status default and reads every other field as stored |
| ExpenseModel.ValidationErrors | backend/models/Expense.js:4-35 | each path is reported exactly when its validator fails: userId, category and date are required; amount is required and at least 0; category and status are in their enums; notes are at most 500 UTF-16 code units long. The reported validator is `required` for a missing userId, amount, category or date and for an empty category, then `min` for a negative amount, `enum` for a category or status outside its list, and `maxlength` for over-long notes |
| ExpenseModel.NoErrorsIffConforms | backend/models/Expense.js:4-35 | validation reports no error exactly when the document satisfies the whole schema |
| ExpenseModel.Validate | backend/models/Expense.js:4-37 | save succeeds exactly on conforming documents; the stored expense satisfies the schema, has the assigned id and is saved as the given document; a failure reports a non-empty error map |
| ExpenseModel.ValidateRoundTrip | backend/models/Expense.js:4-35 | every expense that satisfies the schema is accepted back from the document it is saved as |
| AuditLogModel.ActionName | backend/models/AuditLog.js:9-13 | every action is written as one of the six enum strings |
| AuditLogModel.ParseAction | backend/models/AuditLog.js:9-13 | a string denotes an action exactly when it is in the enum list, and it is written back as the same string |
| AuditLogModel.EntryErrors | backend/models/AuditLog.js:3-21 | a new entry fails validation exactly when userId is missing or the action is not an enum value. Exactly those paths are reported: `required` for a missing userId or an empty action, `enum` for any other action outside the list |
| AuditLogModel.AuditLog.constructor | backend/models/AuditLog.js:3-21 | the collection starts empty |
| AuditLogModel.AuditLog.Tick | backend/models/AuditLog.js:17-20 | the clock that stamps new entries reads the given time |
| AuditLogModel.AuditLog.Log | backend/models/AuditLog.js:23-30 | on success exactly one entry is appended (the given user, action and details, stamped with the current clock) and earlier entries are untouched; a validation failure or a refused insert appends nothing and reports which of the two happened |
| Aggregation.Group | backend/routes/expenses.js:120-126 | grouping yields at most one row per key |
| Aggregation.GroupRows | backend/routes/expenses.js:120-126 | every row's total is the sum of the amounts and its count the number of the elements with its key, and no row is empty |
| Aggregation.GroupCovers | backend/routes/expenses.js:120-126 | every element's key has a row |
| Aggregation.GroupCount | backend/routes/expenses.js:124 | the row counts add up to the number of grouped elements |
| Aggregation.CategoryTotals | backend/routes/expenses.js:118-128 | one row per category of an approved expense and no other; each row holds the sum and count of the approved expenses of that category; rows go from largest total to smallest; counts add up to the number of approved expenses |
| Aggregation.MonthlyTrends | backend/routes/expenses.js:139-152 | one row per (year, month) of an approved expense and no other; each row holds that month's approved sum and count; rows are in strictly increasing chronological order; counts add up to the number of approved expenses |
| Aggregation.ApprovedKept | backend/routes/expenses.js:119 | every approved expense passes the match stage |
| Aggregation.Chronological | backend/routes/expenses.js:151 | distinct months sorted by ascending (year, month) are in strictly increasing chronological order |
| Aggregation.NotApprovedIgnored | backend/routes/expenses.js:116-158 | adding an expense that is not approved changes neither analytics result: the same row lists satisfy the category characterisation, and the model's computed results are equal |
| ExpenseRoutes.BuildExpenseQuery | backend/routes/expenses.js:43-57 | the query selects exactly the expenses the caller may see under the filters: a non-admin only their own whatever the filters, with status/category equality and inclusive date bounds; only an admin's query has no owner condition |
| ExpenseRoutes.SortedMatches | backend/routes/expenses.js:61-64 | all matches of the query, as a permutation, newest date first |
| ExpenseRoutes.PageOfMatches | backend/routes/expenses.js:59-66 | a page of the sorted matches holds only stored expenses that match the query |
| ExpenseRoutes.FindExpenses | backend/routes/expenses.js:59-74 | the page holds at most `limit` matching expenses, newest first. It is the window at the skip offset of some newest-first arrangement of all matches, with ties between equal dates in any order. `total` counts all matches and `pages` is the ceiling of total / limit |
| ExpenseRoutes.IndexOf | backend/routes/expenses.js:87-91 | the position found holds the expense with that id; no position is found exactly when no expense has it |
| ExpenseRoutes.SaveStatus | backend/routes/expenses.js:93-96 | saving a status update fails with an `enum` error on `status` alone when the status is outside the enum; otherwise it stores the expense with the new (or cleared) status and the caller as approver, all else unchanged |
| ExpenseRoutes.ExpenseSystem.constructor | backend/models/Expense.js:3-38 | an empty expense collection and an empty audit log satisfy the invariant: stored expenses are valid with distinct ids below the next id, and audit entries only name ids already handed out |
| ExpenseRoutes.ExpenseSystem.Create | backend/routes/expenses.js:9-36 | a non-conforming document stores and logs nothing and reports its validation errors; otherwise exactly one expense is appended, owned by the caller with a fresh id, the body's amount, category, date and notes, status pending and no approver, followed by one EXPENSE_CREATED entry with those values. No earlier audit entry names the new id, so after a successful create exactly one EXPENSE_CREATED entry refers to it. A failed audit write leaves the expense stored; the invariant is kept |
| ExpenseRoutes.ExpenseSystem.List | backend/routes/expenses.js:39-81 | every listed expense is stored and satisfies the filters; a non-admin sees only their own; newest date first; at most `limit` items (default 10); page defaults to 1; total counts all visible expenses; pages is the ceiling of total / limit; the items are that page of some newest-first arrangement of the visible expenses, with ties between equal dates in any order |
| ExpenseRoutes.ExpenseSystem.UpdateStatus | backend/routes/expenses.js:84-113 | a non-admin is refused, an unknown id is not found, and an out-of-enum status is an `enum` validation error, all changing nothing; otherwise exactly the addressed expense gets the new (or cleared) status and the caller as approver, from any current status. One EXPENSE_STATUS_CHANGED entry follows, with the old status as loaded (a cleared status reads as `pending`) and the new status. The answer is the expense as loaded again. The invariant is kept |
| ExpenseRoutes.ExpenseSystem.CategoryAnalytics | backend/routes/expenses.js:116-134 | only an admin is answered. The answer has one row per category of an approved expense, holding that category's sum and count, largest total first, with counts adding up to the number of approved expenses. It holds the same rows as `CategoryTotals`, with no promised order among equal totals |
| ExpenseRoutes.ExpenseSystem.TrendAnalytics | backend/routes/expenses.js:137-158 | only an admin is answered, with the monthly trends of the stored expenses |
| AuditRoutes.BuildAuditQuery | backend/routes/audit.js:12-14 | the query selects exactly the entries with the requested action (when one is given) by the requested user (when one is given) |
| AuditRoutes.SortedSelection | backend/routes/audit.js:18-20 | all selected entries, as a permutation, newest timestamp first |
| AuditRoutes.PageOfSelection | backend/routes/audit.js:16-22 | a page of the sorted selection holds only logged entries the query selects, newest first |
| AuditRoutes.FindAuditEntries | backend/routes/audit.js:16-32 | the page holds at most `limit` selected entries, newest first. It is the window at the skip offset of some newest-first arrangement of all selected entries, with ties between equal timestamps in any order. `total` counts all selected entries and `pages` is the ceiling of total / limit |
| AuditRoutes.ListAuditLogs | backend/routes/audit.js:8-37 | only an admin is answered; the page holds only logged entries that match the requested action and user, newest first, at most `limit` (default 20) of them, at page `current` (default 1). The page is a window of some newest-first arrangement of all matching entries, with ties in any order, and comes with the total and page count of those entries |
| ExpenseListView.NoFilterKeepsAll | frontend/src/components/Expenses/ExpenseList.jsx:19-39 | with every filter field empty the view is the whole list |
| ExpenseListView.FilteredFacts | frontend/src/components/Expenses/ExpenseList.jsx:18-42 | the view keeps list order, holds only expenses that meet the criteria, and holds every expense of the list that meets them as often as the list does |
| ExpenseListView.FilteredIdempotent | frontend/src/components/Expenses/ExpenseList.jsx:18-42 | filtering the view again with the same criteria changes nothing |
| ExpenseListView.ExpenseList.constructor | frontend/src/components/Expenses/ExpenseList.jsx:12 | the view starts as the whole list |
| ExpenseListView.ExpenseList.ExpensesChanged | frontend/src/components/Expenses/ExpenseList.jsx:14-16 | a new list replaces the view as a whole, whatever filters were applied before |
| ExpenseListView.ExpenseList.HandleFilter | frontend/src/components/Expenses/ExpenseList.jsx:18-42 | the new view is the filtered full list, whatever the previous view was, after narrowing step by step by status, category, start date and end date, each only when given |

## Left out

- HTTP plumbing is not modelled: status codes, JSON bodies and the `populate` joins that add user names and emails. The re-read before answering is otherwise modelled. `UpdateStatus` answers with the expense as loaded again (`Loaded`). `Create` answers with the stored expense, which a re-read gives back unchanged because its status is `pending`.
- Authentication and the admin middleware are not part of this model (`backend/middleware/auth.js` is not part of it). A request arrives with its resolved `User`, and `requireAdmin` is the check `role == "admin"`.
- Query-string coercion is not modelled:
  - `page` and `limit` are positive integers here, so zero, negative and non-numeric values are not modelled;
  - ids are natural numbers, so a malformed ObjectId (a cast error) is not modelled;
  - date filters arrive already parsed.
- FindExpenses: pages are requested with positive `page` and `limit`. The source's arithmetic on a `page` of 0 or on a string `limit` is not reproduced.
- FindAuditEntries: the same restriction to positive `page` and `limit` applies.
- Date parsing, time zones and the time of day are left out. A `Date` is a calendar day with a month in 1..12 and a day in 1..31. Whether the day exists in its month is left to the parser that produced it.
- Amounts are integers (cents), not floating-point numbers, so no rounding is modelled.
- SortDesc: the sort the model computes places ties between equal keys in insertion order. The listing contracts do not rely on this. They promise only a window of some newest-first arrangement (`IsPageOf`, `IsLogPageOf`).
- CategoryTotals: rows with equal totals come in the order the grouping produced them, an order the database does not promise. `CategoryAnalytics` does not promise that order: its contract is `IsCategoryTotals` plus the same multiset of rows.
- NotApprovedIgnored: its equality of `CategoryTotals` results is about the model's own tie order. Its characterisation clause is the statement that does not depend on it.
- List: separate page requests are separate queries, so expenses with equal dates may be arranged differently from one request to the next. The model does not claim that consecutive pages of separate requests never repeat or skip an item when dates tie. `PagesPartition` is about one fixed arrangement.
- ListAuditLogs: the same holds for entries with equal timestamps.
- List: the listed expenses are returned as stored. An expense whose status an update cleared is listed with no status; mongoose would fill in the `pending` default when it loads it (see `Loaded`).
- Database internals are not modelled: ObjectId generation, concurrent requests and the `createdAt`/`updatedAt` timestamps. New expense ids come from a counter.
- Audit details are a datatype with one shape per entry kind, instead of free-form `Mixed` data.
- The outcome of the audit insert is an input (`auditWritten`). The clock is a field that only `Tick` advances.
- Create: the save, and the read-back `findById`, are assumed to succeed whenever validation passes. A save failing for another reason, or a read-back throwing after the expense and its audit entry are stored (an error answer although both were written), is not modelled. Only validation and the audit insert can fail.
- UpdateStatus: the lookup `findById`, the save and the read-back are likewise assumed to succeed. Only a refused caller, an unknown id, validation and the audit insert can fail it.
- The React rendering of the list (cards, loading and empty states, the filter form) is not modelled; only the state updates are.
