/** The two analytics pipelines over the expense collection: keep the
    approved expenses, group them by a key, sum their amounts and count them,
    then sort the groups. */
module Aggregation {
  import opened Wrappers
  import opened Calendar
  import opened Sequences
  import opened ExpenseModel

  /** One output document of a `$group` stage: the group key, the `$sum` of
      the amounts and the `$sum: 1` count. */
  datatype Row<K> = Row(key: K, total: int, count: nat)

  function RowKey<K>(row: Row<K>): K { row.key }
  function RowTotal<K>(row: Row<K>): int { row.total }
  function RowCount<K>(row: Row<K>): int { row.count }

  /** Some row of `rows` has key `k`. */
  ghost predicate HasKey<K>(rows: seq<Row<K>>, k: K) {
    exists i :: 0 <= i < |rows| && rows[i].key == k
  }

  /** The sum of the amounts of the elements of `s` whose key is `k`. */
  function SumWhere<K(==)>(s: seq<Expense>, key: Expense -> K, k: K): int {
    if s == [] then 0 else (if key(s[0]) == k then s[0].amount else 0) + SumWhere(s[1..], key, k)
  }

  /** The number of elements of `s` whose key is `k`. */
  function CountWhere<K(==)>(s: seq<Expense>, key: Expense -> K, k: K): nat {
    if s == [] then 0 else (if key(s[0]) == k then 1 else 0) + CountWhere(s[1..], key, k)
  }

  /** A key no element has contributes nothing. */
  lemma {:induction false} AbsentKey<K>(s: seq<Expense>, key: Expense -> K, k: K)
    requires forall e :: e in s ==> key(e) != k
    ensures SumWhere(s, key, k) == 0 && CountWhere(s, key, k) == 0
    decreases |s|
  {
    if s != [] {
      assert s[0] in s;
      AbsentKey(s[1..], key, k);
    }
  }

  /** The position of the row with key `k`, or -1 when there is none. */
  function KeyIndex<K(==)>(rows: seq<Row<K>>, k: K): (i: int)
    ensures -1 <= i < |rows|
    ensures i >= 0 ==> rows[i].key == k
    ensures i < 0 ==> forall j :: 0 <= j < |rows| ==> rows[j].key != k
  {
    if rows == [] then -1
    else if rows[|rows| - 1].key == k then |rows| - 1
    else KeyIndex(rows[..|rows| - 1], k)
  }

  /** Adds one amount to the group `k`, opening the group at the end when
      there is none yet. */
  function AddTo<K(==)>(rows: seq<Row<K>>, k: K, amount: int): (r: seq<Row<K>>)
    requires Injective(rows, RowKey)
    ensures Injective(r, RowKey)
  {
    var i := KeyIndex(rows, k);
    if i < 0 then rows + [Row(k, amount, 1)]
    else
      var r := rows[i := Row(k, rows[i].total + amount, rows[i].count + 1)];
      assert forall j :: 0 <= j < |r| ==> r[j].key == rows[j].key;
      r
  }

  /** The `$group` stage: one row per distinct key, in order of first
      appearance from the end. */
  function Group<K(==)>(s: seq<Expense>, key: Expense -> K): (r: seq<Row<K>>)
    ensures Injective(r, RowKey)
  {
    if s == [] then [] else AddTo(Group(s[1..], key), key(s[0]), s[0].amount)
  }

  /** Every element's key has a row. */
  lemma {:induction false} GroupCovers<K>(s: seq<Expense>, key: Expense -> K)
    ensures forall e :: e in s ==> HasKey(Group(s, key), key(e))
    decreases |s|
  {
    if s != [] {
      var t, k0 := s[1..], key(s[0]);
      GroupCovers(t, key);
      var g := Group(t, key);
      var r := Group(s, key);
      var i := KeyIndex(g, k0);
      assert |g| <= |r|;
      assert forall j :: 0 <= j < |g| ==> r[j].key == g[j].key;
      forall e | e in s ensures HasKey(r, key(e)) {
        if e != s[0] {
          assert e in t;
          var j :| 0 <= j < |g| && g[j].key == key(e);
          assert r[j].key == key(e);
        } else if i >= 0 {
          assert r[i].key == k0;
        } else {
          assert r[|g|].key == k0;
        }
      }
    }
  }

  /** The counts of the groups add up to the number of elements. */
  lemma {:induction false} GroupCount<K>(s: seq<Expense>, key: Expense -> K)
    ensures SumOf(Group(s, key), RowCount) == |s|
    decreases |s|
  {
    if s != [] {
      var t, k0, a0 := s[1..], key(s[0]), s[0].amount;
      GroupCount(t, key);
      var g := Group(t, key);
      var i := KeyIndex(g, k0);
      if i >= 0 {
        SumUpdate(g, i, Row(k0, g[i].total + a0, g[i].count + 1), RowCount);
      } else {
        SumSnoc(g, Row(k0, a0, 1), RowCount);
      }
    }
  }

  /** Every row is the sum and the count of the elements with its key, and
      no group is empty. */
  lemma {:induction false} GroupRows<K>(s: seq<Expense>, key: Expense -> K)
    ensures forall row :: row in Group(s, key) ==>
      row.total == SumWhere(s, key, row.key) && row.count == CountWhere(s, key, row.key) && row.count >= 1
    decreases |s|
  {
    if s != [] {
      var t, k0, a0 := s[1..], key(s[0]), s[0].amount;
      GroupRows(t, key);
      var g := Group(t, key);
      var r := Group(s, key);
      var i := KeyIndex(g, k0);
      if i >= 0 {
        assert r == g[i := Row(k0, g[i].total + a0, g[i].count + 1)];
        assert g[i] in g;
        forall row | row in r
          ensures row.total == SumWhere(s, key, row.key) && row.count == CountWhere(s, key, row.key) && row.count >= 1
        {
          var j :| 0 <= j < |r| && r[j] == row;
          if j != i {
            assert g[j] in g;
            assert RowKey(g[j]) != RowKey(g[i]);
          }
        }
      } else {
        assert r == g + [Row(k0, a0, 1)];
        GroupCovers(t, key);
        forall e | e in t ensures key(e) != k0 {
          var j :| 0 <= j < |g| && g[j].key == key(e);
        }
        AbsentKey(t, key, k0);
        forall row | row in r
          ensures row.total == SumWhere(s, key, row.key) && row.count == CountWhere(s, key, row.key) && row.count >= 1
        {
          var j :| 0 <= j < |r| && r[j] == row;
          if j < |g| {
            assert g[j] in g;
          }
        }
      }
    }
  }

  /** Reordering rows keeps every row and every key. */
  lemma PermutedRows<K>(a: seq<Row<K>>, b: seq<Row<K>>)
    requires multiset(a) == multiset(b)
    ensures forall row :: row in b ==> row in a
    ensures forall k :: HasKey(a, k) ==> HasKey(b, k)
  {
    forall row | row in b ensures row in a {
      assert row in multiset(b);
    }
    forall k | HasKey(a, k) ensures HasKey(b, k) {
      var i :| 0 <= i < |a| && a[i].key == k;
      assert a[i] in multiset(b);
      var j :| 0 <= j < |b| && b[j] == a[i];
    }
  }

  // --------------------------------------------------------------- pipelines

  predicate IsApproved(e: Expense) {
    e.status == Some(Approved)
  }

  /** The `$match: { status: 'approved' }` stage. */
  function ApprovedOnly(expenses: seq<Expense>): seq<Expense> {
    Filter(expenses, IsApproved)
  }

  function CategoryOf(e: Expense): Category { e.category }

  function MonthOf(e: Expense): YearMonth { YearMonth(e.date.year, e.date.month) }

  /** Sorting key that puts earlier months first. */
  function EarlierFirst(row: Row<YearMonth>): int { -MonthKey(row.key) }

  /** What the category pipeline answers, whatever order it gives rows
      with equal totals: one row per category of an approved expense, each
      holding that category's sum and count, largest total first, the
      counts adding up to the number of approved expenses. */
  ghost predicate IsCategoryTotals(r: seq<Row<Category>>, expenses: seq<Expense>) {
    && Injective(r, RowKey)
    && (forall row :: row in r ==>
          && row.total == SumWhere(ApprovedOnly(expenses), CategoryOf, row.key)
          && row.count == CountWhere(ApprovedOnly(expenses), CategoryOf, row.key)
          && row.count >= 1)
    && (forall e :: e in expenses && IsApproved(e) ==> HasKey(r, e.category))
    && NonIncreasing(r, RowTotal)
    && SumOf(r, RowCount) == |ApprovedOnly(expenses)|
  }

  /** Totals per category of the approved expenses, largest total first.
      Rows with equal totals come in the order the grouping produced them,
      an order the database does not promise. */
  function CategoryTotals(expenses: seq<Expense>): (r: seq<Row<Category>>)
    ensures IsCategoryTotals(r, expenses)
  {
    var approved := ApprovedOnly(expenses);
    var g := Group(approved, CategoryOf);
    GroupRows(approved, CategoryOf);
    GroupCovers(approved, CategoryOf);
    GroupCount(approved, CategoryOf);
    var r := SortDesc(g, RowTotal);
    SortInjective(g, RowTotal, RowKey);
    SortSum(g, RowTotal, RowCount);
    PermutedRows(g, r);
    ApprovedKept(expenses);
    r
  }

  /** Totals per (year, month) of the approved expenses, earliest month first. */
  function MonthlyTrends(expenses: seq<Expense>): (r: seq<Row<YearMonth>>)
    ensures Injective(r, RowKey)
    ensures forall row :: row in r ==>
      && row.total == SumWhere(ApprovedOnly(expenses), MonthOf, row.key)
      && row.count == CountWhere(ApprovedOnly(expenses), MonthOf, row.key)
      && row.count >= 1
    ensures forall e :: e in expenses && IsApproved(e) ==> HasKey(r, MonthOf(e))
    ensures forall i, j :: 0 <= i < j < |r| ==> YearMonthLt(r[i].key, r[j].key)
    ensures SumOf(r, RowCount) == |ApprovedOnly(expenses)|
  {
    var approved := ApprovedOnly(expenses);
    var g := Group(approved, MonthOf);
    GroupRows(approved, MonthOf);
    GroupCovers(approved, MonthOf);
    GroupCount(approved, MonthOf);
    var r := SortDesc(g, EarlierFirst);
    SortInjective(g, EarlierFirst, RowKey);
    SortSum(g, EarlierFirst, RowCount);
    PermutedRows(g, r);
    ApprovedKept(expenses);
    Chronological(r);
    r
  }

  /** Every approved expense passes the `$match` stage. */
  lemma ApprovedKept(expenses: seq<Expense>)
    ensures forall e :: e in expenses && IsApproved(e) ==> e in ApprovedOnly(expenses)
  {
    forall e | e in expenses && IsApproved(e) ensures e in ApprovedOnly(expenses) {
      FilterCount(expenses, IsApproved, e);
      assert e in multiset(ApprovedOnly(expenses));
    }
  }

  /** Rows with distinct months sorted by `EarlierFirst` are in strictly
      increasing chronological order. */
  lemma Chronological(r: seq<Row<YearMonth>>)
    requires NonIncreasing(r, EarlierFirst) && Injective(r, RowKey)
    ensures forall i, j :: 0 <= i < j < |r| ==> YearMonthLt(r[i].key, r[j].key)
  {
    forall i, j | 0 <= i < j < |r| ensures YearMonthLt(r[i].key, r[j].key) {
      MonthKeyOrder(r[i].key, r[j].key);
      assert RowKey(r[i]) != RowKey(r[j]);
    }
  }

  /** Only approved expenses contribute: adding one that is not approved
      changes neither analytics result. */
  lemma NotApprovedIgnored(expenses: seq<Expense>, e: Expense)
    requires !IsApproved(e)
    ensures forall r :: IsCategoryTotals(r, expenses + [e]) <==> IsCategoryTotals(r, expenses)
    ensures CategoryTotals(expenses + [e]) == CategoryTotals(expenses)
    ensures MonthlyTrends(expenses + [e]) == MonthlyTrends(expenses)
  {
    FilterSnocRejected(expenses, e, IsApproved);
    assert ApprovedOnly(expenses + [e]) == ApprovedOnly(expenses);
    forall r ensures IsCategoryTotals(r, expenses + [e]) <==> IsCategoryTotals(r, expenses) {
      assert forall x :: x in expenses + [e] && IsApproved(x) <==> x in expenses && IsApproved(x);
    }
  }
}
