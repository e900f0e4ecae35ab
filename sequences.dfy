/** Generic operations on sequences that the database queries and the
    client-side filter are built from: `find` with a predicate, `sort`,
    `skip`/`limit` and the page count. */
module Sequences {

  type Positive = n: nat | n >= 1 witness 1

  // ---------------------------------------------------------------- filter

  /** The elements of `s` that satisfy `p`, in their original order
      (JavaScript's `Array.prototype.filter`, a query predicate of `find`). */
  function Filter<T>(s: seq<T>, p: T -> bool): (r: seq<T>)
    ensures |r| <= |s|
    ensures forall x :: x in r ==> x in s && p(x)
  {
    if s == [] then []
    else (if p(s[0]) then [s[0]] else []) + Filter(s[1..], p)
  }

  /** Filter keeps every element that satisfies `p` as often as `s` has it,
      and no other element. */
  lemma {:induction false} FilterCount<T>(s: seq<T>, p: T -> bool, x: T)
    ensures multiset(Filter(s, p))[x] == if p(x) then multiset(s)[x] else 0
    decreases |s|
  {
    if s != [] {
      FilterCount(s[1..], p, x);
      assert s == [s[0]] + s[1..];
      assert multiset(s) == multiset{s[0]} + multiset(s[1..]);
    }
  }

  /** `a` is obtained from `b` by deleting elements, without reordering. */
  predicate IsSubsequence<T(==)>(a: seq<T>, b: seq<T>)
    decreases |b|
  {
    a == [] || (b != [] && ((a[0] == b[0] && IsSubsequence(a[1..], b[1..])) || IsSubsequence(a, b[1..])))
  }

  lemma {:induction false} FilterIsSubsequence<T>(s: seq<T>, p: T -> bool)
    ensures IsSubsequence(Filter(s, p), s)
    decreases |s|
  {
    if s != [] {
      FilterIsSubsequence(s[1..], p);
      if p(s[0]) {
        assert Filter(s, p) == [s[0]] + Filter(s[1..], p);
        assert Filter(s, p)[1..] == Filter(s[1..], p);
      } else {
        assert Filter(s, p) == Filter(s[1..], p);
      }
    }
  }

  /** A filter that keeps everything is the identity. */
  lemma {:induction false} FilterAll<T>(s: seq<T>, p: T -> bool)
    requires forall x :: x in s ==> p(x)
    ensures Filter(s, p) == s
    decreases |s|
  {
    if s != [] {
      FilterAll(s[1..], p);
      assert s == [s[0]] + s[1..];
    }
  }

  /** Only the pointwise value of the predicate matters. */
  lemma {:induction false} FilterExt<T>(s: seq<T>, p: T -> bool, q: T -> bool)
    requires forall x :: x in s ==> p(x) == q(x)
    ensures Filter(s, p) == Filter(s, q)
    decreases |s|
  {
    if s != [] {
      FilterExt(s[1..], p, q);
    }
  }

  /** Filtering by `p` and then by `q` is filtering once by their conjunction. */
  lemma {:induction false} FilterThenFilter<T>(s: seq<T>, p: T -> bool, q: T -> bool, pq: T -> bool)
    requires forall x :: pq(x) == (p(x) && q(x))
    ensures Filter(Filter(s, p), q) == Filter(s, pq)
    decreases |s|
  {
    if s != [] {
      var t := Filter(s[1..], p);
      FilterThenFilter(s[1..], p, q, pq);
      assert Filter(s, pq) == (if pq(s[0]) then [s[0]] else []) + Filter(s[1..], pq);
      if p(s[0]) {
        var u := [s[0]] + t;
        assert Filter(s, p) == u;
        assert u[0] == s[0] && u[1..] == t;
        assert Filter(u, q) == (if q(s[0]) then [s[0]] else []) + Filter(t, q);
      } else {
        assert Filter(s, p) == t;
      }
    }
  }

  /** An element appended at the end that fails the predicate leaves the result unchanged. */
  lemma {:induction false} FilterSnocRejected<T>(s: seq<T>, x: T, p: T -> bool)
    requires !p(x)
    ensures Filter(s + [x], p) == Filter(s, p)
    decreases |s|
  {
    if s == [] {
      assert Filter([x], p) == [] + Filter([x][1..], p);
    } else {
      assert (s + [x])[1..] == s[1..] + [x];
      FilterSnocRejected(s[1..], x, p);
    }
  }

  // ------------------------------------------------------------------ sort

  /** `s` is in non-increasing order of `key`. */
  ghost predicate NonIncreasing<T>(s: seq<T>, key: T -> int) {
    forall i, j :: 0 <= i < j < |s| ==> key(s[i]) >= key(s[j])
  }

  /** Inserts `x` into a list sorted by non-increasing `key`, before the
      first element whose key is not greater. */
  function Insert<T>(x: T, s: seq<T>, key: T -> int): (r: seq<T>)
    ensures |r| == |s| + 1
    ensures multiset(r) == multiset(s) + multiset{x}
  {
    if s == [] || key(x) >= key(s[0]) then [x] + s
    else
      assert s == [s[0]] + s[1..];
      [s[0]] + Insert(x, s[1..], key)
  }

  lemma {:induction false} InsertSorted<T>(x: T, s: seq<T>, key: T -> int)
    requires NonIncreasing(s, key)
    ensures NonIncreasing(Insert(x, s, key), key)
    decreases |s|
  {
    if s != [] && key(x) < key(s[0]) {
      var t := Insert(x, s[1..], key);
      InsertSorted(x, s[1..], key);
      assert Insert(x, s, key) == [s[0]] + t;
      forall j | 0 <= j < |t| ensures key(t[j]) <= key(s[0]) {
        assert t[j] in multiset(t);
        if t[j] != x {
          assert t[j] in multiset(s[1..]);
          var i :| 0 <= i < |s[1..]| && s[1..][i] == t[j];
          assert s[i + 1] == t[j];
        }
      }
    }
  }

  /** A permutation of `s` in non-increasing order of `key`. The order among
      elements with equal keys is not specified by the source's database and
      is not promised here. */
  function SortDesc<T>(s: seq<T>, key: T -> int): (r: seq<T>)
    ensures |r| == |s|
    ensures multiset(r) == multiset(s)
    ensures NonIncreasing(r, key)
  {
    if s == [] then []
    else
      assert s == [s[0]] + s[1..];
      InsertSorted(s[0], SortDesc(s[1..], key), key);
      Insert(s[0], SortDesc(s[1..], key), key)
  }

  /** `f` takes different values on different positions of `s`. */
  ghost predicate Injective<T, K>(s: seq<T>, f: T -> K) {
    forall i, j :: 0 <= i < j < |s| ==> f(s[i]) != f(s[j])
  }

  lemma {:induction false} InsertInjective<T, K>(x: T, s: seq<T>, key: T -> int, f: T -> K)
    requires Injective(s, f)
    requires forall y :: y in s ==> f(y) != f(x)
    ensures Injective(Insert(x, s, key), f)
    decreases |s|
  {
    if s != [] && key(x) < key(s[0]) {
      InsertInjective(x, s[1..], key, f);
      var t := Insert(x, s[1..], key);
      assert s[0] in s;
      forall j | 0 <= j < |t| ensures f(s[0]) != f(t[j]) {
        assert t[j] in multiset(t);
        if t[j] != x {
          assert t[j] in multiset(s[1..]);
          var i :| 0 <= i < |s[1..]| && s[1..][i] == t[j];
          assert s[i + 1] == t[j];
        }
      }
    }
  }

  /** Sorting keeps a projection that was injective injective. */
  lemma {:induction false} SortInjective<T, K>(s: seq<T>, key: T -> int, f: T -> K)
    requires Injective(s, f)
    ensures Injective(SortDesc(s, key), f)
    decreases |s|
  {
    if s != [] {
      SortInjective(s[1..], key, f);
      var t := SortDesc(s[1..], key);
      forall y | y in t ensures f(y) != f(s[0]) {
        assert y in multiset(s[1..]);
        var j :| 0 <= j < |s[1..]| && s[1..][j] == y;
        assert s[j + 1] == y;
      }
      InsertInjective(s[0], t, key, f);
    }
  }

  /** The sum of `g` over the elements of `s`. */
  function SumOf<T>(s: seq<T>, g: T -> int): int {
    if s == [] then 0 else g(s[0]) + SumOf(s[1..], g)
  }

  lemma {:induction false} InsertSum<T>(x: T, s: seq<T>, key: T -> int, g: T -> int)
    ensures SumOf(Insert(x, s, key), g) == g(x) + SumOf(s, g)
    decreases |s|
  {
    if s != [] && key(x) < key(s[0]) {
      InsertSum(x, s[1..], key, g);
      assert Insert(x, s, key)[1..] == Insert(x, s[1..], key);
    } else {
      assert Insert(x, s, key)[1..] == s;
    }
  }

  /** Sorting does not change a sum over the elements. */
  lemma {:induction false} SortSum<T>(s: seq<T>, key: T -> int, g: T -> int)
    ensures SumOf(SortDesc(s, key), g) == SumOf(s, g)
    decreases |s|
  {
    if s != [] {
      SortSum(s[1..], key, g);
      InsertSum(s[0], SortDesc(s[1..], key), key, g);
    }
  }

  lemma {:induction false} SumSnoc<T>(s: seq<T>, x: T, g: T -> int)
    ensures SumOf(s + [x], g) == SumOf(s, g) + g(x)
    decreases |s|
  {
    if s == [] {
      assert [x][1..] == [];
    } else {
      assert (s + [x])[1..] == s[1..] + [x];
      SumSnoc(s[1..], x, g);
    }
  }

  lemma {:induction false} SumUpdate<T>(s: seq<T>, i: nat, y: T, g: T -> int)
    requires i < |s|
    ensures SumOf(s[i := y], g) == SumOf(s, g) - g(s[i]) + g(y)
    decreases |s|
  {
    if i == 0 {
      assert s[i := y][1..] == s[1..];
    } else {
      assert s[i := y][1..] == s[1..][i - 1 := y];
      SumUpdate(s[1..], i - 1, y, g);
    }
  }

  // ------------------------------------------------------------ pagination

  function Min(a: int, b: int): int { if a <= b then a else b }

  /** `pages` pages of `limit` items hold `total` items, and one page fewer
      would not. */
  predicate PageCount(pages: nat, total: nat, limit: Positive) {
    pages * limit >= total && (pages == 0 || (pages - 1) * limit < total)
  }

  /** At most one page count fits a total. */
  lemma PageCountUnique(p1: nat, p2: nat, total: nat, limit: Positive)
    requires PageCount(p1, total, limit) && PageCount(p2, total, limit)
    ensures p1 == p2
  {
    if p1 < p2 {
      MulMonotone(p1, p2 - 1, limit);
    } else if p2 < p1 {
      MulMonotone(p2, p1 - 1, limit);
    }
  }

  /** The number of pages of `limit` items needed for `total` items:
      `Math.ceil(total / limit)`. */
  function CeilDiv(total: nat, limit: Positive): (pages: nat)
    ensures PageCount(pages, total, limit)
  {
    var q := (total + limit - 1) / limit;
    var rem := (total + limit - 1) % limit;
    assert total + limit - 1 == q * limit + rem && 0 <= rem < limit;
    assert (q - 1) * limit == q * limit - limit;
    q
  }

  /** The number of items before page `page` (1-based). */
  function Skip(page: Positive, limit: Positive): nat {
    (page - 1) * limit
  }

  /** The items of page `page` (1-based) of `s` with `limit` items per page:
      `skip((page - 1) * limit).limit(limit)`. */
  function Window<T>(s: seq<T>, page: Positive, limit: Positive): (r: seq<T>)
    ensures |r| <= limit
    ensures forall k :: 0 <= k < |r| ==> Skip(page, limit) + k < |s| && r[k] == s[Skip(page, limit) + k]
    ensures |r| == if Skip(page, limit) >= |s| then 0 else Min(limit, |s| - Skip(page, limit))
  {
    var skip := Skip(page, limit);
    var lo := Min(skip, |s|);
    var hi := Min(skip + limit, |s|);
    s[lo..hi]
  }

  /** A page keeps any order that holds between every earlier and every
      later element of `s`. */
  lemma WindowKeepsOrder<T>(s: seq<T>, page: Positive, limit: Positive, before: (T, T) -> bool)
    requires forall i, j :: 0 <= i < j < |s| ==> before(s[i], s[j])
    ensures var w := Window(s, page, limit);
      forall i, j :: 0 <= i < j < |w| ==> before(w[i], w[j])
  {
    var w := Window(s, page, limit);
    var skip := Skip(page, limit);
    forall i, j | 0 <= i < j < |w| ensures before(w[i], w[j]) {
      assert w[i] == s[skip + i] && w[j] == s[skip + j];
    }
  }

  /** A page holds only elements of `s`. */
  lemma WindowIn<T>(s: seq<T>, page: Positive, limit: Positive)
    ensures forall x :: x in Window(s, page, limit) ==> x in s
  {
  }

  /** Pages 1 through `n`, concatenated. */
  function PagesUpTo<T>(s: seq<T>, limit: Positive, n: nat): seq<T> {
    if n == 0 then [] else PagesUpTo(s, limit, n - 1) + Window(s, n, limit)
  }

  lemma {:induction false} PagesUpToPrefix<T>(s: seq<T>, limit: Positive, n: nat)
    ensures PagesUpTo(s, limit, n) == s[..Min(n * limit, |s|)]
  {
    if n > 0 {
      PagesUpToPrefix(s, limit, n - 1);
      assert Skip(n, limit) + limit == n * limit;
      var lo, hi := Min(Skip(n, limit), |s|), Min(n * limit, |s|);
      assert s[..lo] + s[lo..hi] == s[..hi];
    }
  }

  lemma MulMonotone(a: nat, b: nat, c: nat)
    requires a <= b
    ensures a * c <= b * c
  {
    assert b * c == a * c + (b - a) * c;
  }

  /** Paging one fixed arrangement `s` covers it exactly once: pages
      1 .. CeilDiv(|s|, limit) concatenated give back `s`, and every later
      page is empty. */
  lemma PagesPartition<T>(s: seq<T>, limit: Positive)
    ensures PagesUpTo(s, limit, CeilDiv(|s|, limit)) == s
    ensures forall page: Positive :: page > CeilDiv(|s|, limit) ==> Window(s, page, limit) == []
  {
    var n := CeilDiv(|s|, limit);
    PagesUpToPrefix(s, limit, n);
    assert Min(n * limit, |s|) == |s|;
    assert s[..|s|] == s;
    forall page: Positive | page > n ensures Window(s, page, limit) == [] {
      MulMonotone(n, page - 1, limit);
      assert Skip(page, limit) >= |s|;
    }
  }
}
