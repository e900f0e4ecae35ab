/** The client-side expense list: it keeps the list it was given and a
    filtered view of it, recomputed from the full list on every filter
    change and reset whenever a new list arrives. */
module ExpenseListView {
  import opened Calendar
  import opened Sequences
  import opened ExpenseModel

  function StatusIs(status: string): Expense -> bool { e => HasStatus(e, status) }
  function CategoryIs(category: string): Expense -> bool { e => InCategory(e, category) }
  function OnOrAfter(start: Date): Expense -> bool { (e: Expense) => DateLe(start, e.date) }
  function OnOrBefore(end: Date): Expense -> bool { (e: Expense) => DateLe(e.date, end) }

  function SatisfiedBy(c: Criteria): Expense -> bool { e => Satisfies(e, c) }

  /** The filtered view the component shows for `expenses` under `c`: the
      expenses that satisfy the criteria, in list order. */
  function Filtered(expenses: seq<Expense>, c: Criteria): seq<Expense> {
    Filter(expenses, SatisfiedBy(c))
  }

  /** With every filter field empty the view is the whole list. */
  lemma {:induction false} NoFilterKeepsAll(expenses: seq<Expense>)
    ensures Filtered(expenses, NoCriteria) == expenses
  {
    FilterAll(expenses, SatisfiedBy(NoCriteria));
  }

  /** The view is an order-preserving subsequence of the list, every element
      of it satisfies the criteria, and every element of the list that
      satisfies them is in it as often as in the list. */
  lemma FilteredFacts(expenses: seq<Expense>, c: Criteria)
    ensures IsSubsequence(Filtered(expenses, c), expenses)
    ensures forall e :: e in Filtered(expenses, c) ==> Satisfies(e, c)
    ensures forall e :: e in expenses && Satisfies(e, c) ==>
      multiset(Filtered(expenses, c))[e] == multiset(expenses)[e]
  {
    FilterIsSubsequence(expenses, SatisfiedBy(c));
    forall e | e in expenses && Satisfies(e, c)
      ensures multiset(Filtered(expenses, c))[e] == multiset(expenses)[e]
    {
      FilterCount(expenses, SatisfiedBy(c), e);
    }
  }

  /** Filtering the view again with the same criteria changes nothing. */
  lemma FilteredIdempotent(expenses: seq<Expense>, c: Criteria)
    ensures Filtered(Filtered(expenses, c), c) == Filtered(expenses, c)
  {
    FilterThenFilter(expenses, SatisfiedBy(c), SatisfiedBy(c), SatisfiedBy(c));
  }

  class ExpenseList {
    /** The `expenses` prop. */
    var expenses: seq<Expense>
    /** The `filteredExpenses` state. */
    var filteredExpenses: seq<Expense>

    /** `useState(expenses)`: the view starts as the whole list. */
    constructor (expenses: seq<Expense>)
      ensures this.expenses == expenses && filteredExpenses == expenses
    {
      this.expenses := expenses;
      filteredExpenses := expenses;
    }

    /** The effect on a new `expenses` prop: the view is reset to the whole
        new list, whatever filters were applied before. */
    method ExpensesChanged(newExpenses: seq<Expense>)
      modifies this
      ensures expenses == newExpenses && filteredExpenses == newExpenses
    {
      expenses := newExpenses;
      filteredExpenses := newExpenses;
    }

    /** `handleFilter`: starts from the full list, not from the current
        view, and narrows it by each non-empty filter field in turn. The
        new view depends only on the list and the criteria. */
    method HandleFilter(c: Criteria)
      modifies this`filteredExpenses
      ensures filteredExpenses == Filtered(expenses, c)
    {
      var filtered := expenses;
      var applied := NoCriteria;
      NoFilterKeepsAll(expenses);
      if c.status != "" {
        filtered := Filter(filtered, StatusIs(c.status));
        FilterThenFilter(expenses, SatisfiedBy(applied), StatusIs(c.status), SatisfiedBy(applied.(status := c.status)));
      }
      applied := applied.(status := c.status);
      assert filtered == Filtered(expenses, applied) by {
        if c.status == "" {
          FilterExt(expenses, SatisfiedBy(NoCriteria), SatisfiedBy(applied));
        }
      }
      var before := applied;
      if c.category != "" {
        filtered := Filter(filtered, CategoryIs(c.category));
        FilterThenFilter(expenses, SatisfiedBy(before), CategoryIs(c.category), SatisfiedBy(before.(category := c.category)));
      }
      applied := applied.(category := c.category);
      assert filtered == Filtered(expenses, applied) by {
        if c.category == "" {
          FilterExt(expenses, SatisfiedBy(before), SatisfiedBy(applied));
        }
      }
      before := applied;
      if c.startDate.Some? {
        filtered := Filter(filtered, OnOrAfter(c.startDate.value));
        FilterThenFilter(expenses, SatisfiedBy(before), OnOrAfter(c.startDate.value), SatisfiedBy(before.(startDate := c.startDate)));
      }
      applied := applied.(startDate := c.startDate);
      assert filtered == Filtered(expenses, applied) by {
        if c.startDate.None? {
          FilterExt(expenses, SatisfiedBy(before), SatisfiedBy(applied));
        }
      }
      before := applied;
      if c.endDate.Some? {
        filtered := Filter(filtered, OnOrBefore(c.endDate.value));
        FilterThenFilter(expenses, SatisfiedBy(before), OnOrBefore(c.endDate.value), SatisfiedBy(before.(endDate := c.endDate)));
      }
      applied := applied.(endDate := c.endDate);
      assert filtered == Filtered(expenses, applied) by {
        if c.endDate.None? {
          FilterExt(expenses, SatisfiedBy(before), SatisfiedBy(applied));
        }
      }
      assert applied == c;
      filteredExpenses := filtered;
    }
  }
}
