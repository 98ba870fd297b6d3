/** Sequence helpers that stand for the store's query building blocks:
    filtering (`WHERE`), newest-first limits (`ORDER BY ... DESC LIMIT n`),
    Python's `reversed` and a descending sort (`list.sort(reverse=True)`). */
module Seqs {
  import opened Wrappers

  function Min(a: int, b: int): int { if a <= b then a else b }

  /** The elements of `s` satisfying `p`, in their original order. */
  function Filter<T>(s: seq<T>, p: T -> bool): (r: seq<T>)
    ensures |r| <= |s|
    ensures forall i :: 0 <= i < |r| ==> r[i] in s && p(r[i])
    ensures forall i :: 0 <= i < |s| && p(s[i]) ==> s[i] in r
  {
    if s == [] then [] else (if p(s[0]) then [s[0]] else []) + Filter(s[1..], p)
  }

  lemma {:induction false} FilterAppend<T>(s: seq<T>, x: T, p: T -> bool)
    ensures Filter(s + [x], p) == Filter(s, p) + (if p(x) then [x] else [])
  {
    if s == [] {
      assert [x][1..] == [];
    } else {
      assert (s + [x])[1..] == s[1..] + [x];
      FilterAppend(s[1..], x, p);
    }
  }

  /** Filtering one more element of a prefix. */
  lemma FilterStep<T>(s: seq<T>, j: nat, p: T -> bool)
    requires j < |s|
    ensures Filter(s[..j + 1], p) == Filter(s[..j], p) + (if p(s[j]) then [s[j]] else [])
  {
    assert s[..j + 1] == s[..j] + [s[j]];
    FilterAppend(s[..j], s[j], p);
  }

  /** The position of the first element satisfying `p` (a query's `.first()` in table order). */
  function FirstWhere<T>(s: seq<T>, p: T -> bool): (r: Option<nat>)
    ensures r.None? ==> forall i :: 0 <= i < |s| ==> !p(s[i])
    ensures r.Some? ==> r.value < |s| && p(s[r.value]) && forall i :: 0 <= i < r.value ==> !p(s[i])
  {
    if s == [] then None
    else if p(s[0]) then Some(0)
    else match FirstWhere(s[1..], p)
      case None => None
      case Some(i) => Some(i + 1)
  }

  /** Sequences of one length whose elements match `p` at the same places have
      the same first match. */
  lemma {:induction false} FirstWhereSameMatches<T>(a: seq<T>, b: seq<T>, p: T -> bool)
    requires |a| == |b| && forall i :: 0 <= i < |a| ==> p(a[i]) == p(b[i])
    ensures FirstWhere(a, p) == FirstWhere(b, p)
  {
    if a != [] {
      FirstWhereSameMatches(a[1..], b[1..], p);
    }
  }

  /** The position of the last element satisfying `p` (the newest matching row). */
  function LastWhere<T>(s: seq<T>, p: T -> bool): (r: Option<nat>)
    ensures r.None? ==> forall i :: 0 <= i < |s| ==> !p(s[i])
    ensures r.Some? ==> r.value < |s| && p(s[r.value]) && forall i :: r.value < i < |s| ==> !p(s[i])
  {
    if s == [] then None
    else if p(s[|s| - 1]) then Some(|s| - 1)
    else LastWhere(s[..|s| - 1], p)
  }

  /** `rel` holds between every element and every later one. */
  predicate Pairwise<T>(s: seq<T>, rel: (T, T) -> bool) {
    forall i, j :: 0 <= i < j < |s| ==> rel(s[i], s[j])
  }

  /** `key` strictly increases along `s`. */
  predicate Increasing<T>(s: seq<T>, key: T -> int) {
    forall i, j :: 0 <= i < j < |s| ==> key(s[i]) < key(s[j])
  }

  /** Filtering keeps every relation that held between earlier and later elements. */
  lemma {:induction false} FilterKeepsPairwise<T>(s: seq<T>, p: T -> bool, rel: (T, T) -> bool)
    requires Pairwise(s, rel)
    ensures Pairwise(Filter(s, p), rel)
  {
    if s != [] {
      FilterKeepsPairwise(s[1..], p, rel);
      var t := Filter(s[1..], p);
      forall k | 0 <= k < |t| ensures rel(s[0], t[k]) {
        var j :| 0 <= j < |s[1..]| && s[1..][j] == t[k];
        assert s[j + 1] == t[k];
      }
      var r := Filter(s, p);
      if p(s[0]) {
        assert r == [s[0]] + t;
        forall i, j | 0 <= i < j < |r| ensures rel(r[i], r[j]) {
          assert r[j] == t[j - 1];
          if i > 0 { assert r[i] == t[i - 1]; }
        }
      } else {
        assert r == t;
      }
    }
  }

  /** Filtering keeps every key-increasing sequence key-increasing. */
  lemma FilterKeepsIncreasing<T>(s: seq<T>, p: T -> bool, key: T -> int)
    requires Increasing(s, key)
    ensures Increasing(Filter(s, p), key)
  {
    var rel := (a: T, b: T) => key(a) < key(b);
    assert Pairwise(s, rel);
    FilterKeepsPairwise(s, p, rel);
    var r := Filter(s, p);
    assert forall i, j :: 0 <= i < j < |r| ==> rel(r[i], r[j]);
  }

  /** Splitting a filter by a second condition splits its length. */
  lemma {:induction false} FilterSplitCount<T>(s: seq<T>, p: T -> bool, q: T -> bool, pq: T -> bool, pnq: T -> bool)
    requires forall x :: pq(x) == (p(x) && q(x))
    requires forall x :: pnq(x) == (p(x) && !q(x))
    ensures |Filter(s, p)| == |Filter(s, pq)| + |Filter(s, pnq)|
  {
    if s != [] {
      FilterSplitCount(s[1..], p, q, pq, pnq);
    }
  }

  lemma {:induction false} FilterConcat<T>(a: seq<T>, b: seq<T>, p: T -> bool)
    ensures Filter(a + b, p) == Filter(a, p) + Filter(b, p)
  {
    if a != [] {
      var head := if p(a[0]) then [a[0]] else [];
      calc {
        Filter(a + b, p);
        == { assert (a + b)[0] == a[0]; assert (a + b)[1..] == a[1..] + b; }
        head + Filter(a[1..] + b, p);
        == { FilterConcat(a[1..], b, p); }
        head + (Filter(a[1..], p) + Filter(b, p));
        ==
        (head + Filter(a[1..], p)) + Filter(b, p);
      }
    } else {
      assert a + b == b;
    }
  }

  /** Two sequences that agree wherever either element is kept filter alike. */
  lemma {:induction false} FilterAgree<T>(a: seq<T>, b: seq<T>, p: T -> bool)
    requires |a| == |b|
    requires forall i :: 0 <= i < |a| && (p(a[i]) || p(b[i])) ==> a[i] == b[i]
    ensures Filter(a, p) == Filter(b, p)
  {
    if a != [] {
      FilterAgree(a[1..], b[1..], p);
    }
  }

  /** Filtering keeps everything when every element qualifies, and nothing when none does. */
  lemma {:induction false} FilterAllOrNone<T>(s: seq<T>, p: T -> bool)
    ensures (forall i :: 0 <= i < |s| ==> p(s[i])) ==> Filter(s, p) == s
    ensures (forall i :: 0 <= i < |s| ==> !p(s[i])) ==> Filter(s, p) == []
  {
    if s != [] {
      FilterAllOrNone(s[1..], p);
      assert forall i :: 1 <= i < |s| ==> s[1..][i - 1] == s[i];
    }
  }

  /** A second, narrower filter over a filtered sequence is the narrower filter alone. */
  lemma {:induction false} FilterFilter<T>(s: seq<T>, wide: T -> bool, narrow: T -> bool)
    requires forall i :: 0 <= i < |s| && narrow(s[i]) ==> wide(s[i])
    ensures Filter(Filter(s, wide), narrow) == Filter(s, narrow)
  {
    if s != [] {
      FilterFilter(s[1..], wide, narrow);
      var rest := Filter(s[1..], wide);
      if wide(s[0]) {
        assert Filter(s, wide) == [s[0]] + rest;
        var u := [s[0]] + rest;
        assert u[0] == s[0] && u[1..] == rest;
        assert Filter(u, narrow) == (if narrow(s[0]) then [s[0]] else []) + Filter(rest, narrow);
      } else {
        assert !narrow(s[0]);
        assert Filter(s, wide) == rest;
      }
    }
  }

  /** Python's `reversed(s)`. */
  function Reverse<T>(s: seq<T>): (r: seq<T>)
    ensures |r| == |s|
    ensures forall k :: 0 <= k < |s| ==> r[k] == s[|s| - 1 - k]
  {
    seq(|s|, k requires 0 <= k < |s| => s[|s| - 1 - k])
  }

  /** `ORDER BY <insertion order> DESC LIMIT n`: the last `n` elements, last one first. */
  function Newest<T>(s: seq<T>, n: nat): (r: seq<T>)
    ensures |r| == Min(n, |s|)
    ensures forall k :: 0 <= k < |r| ==> r[k] == s[|s| - 1 - k]
  {
    seq(Min(n, |s|), k requires 0 <= k < Min(n, |s|) => s[|s| - 1 - k])
  }

  /** Reversing the newest-first window gives the window in table order:
      the trailing `min(n, |s|)` elements of `s`. */
  lemma NewestReversedIsSuffix<T>(s: seq<T>, n: nat)
    ensures Reverse(Newest(s, n)) == s[|s| - Min(n, |s|)..]
  {
  }

  /** Put back in table order, the window of a key-increasing sequence is key-increasing. */
  lemma NewestReversedIncreasing<T>(s: seq<T>, n: nat, key: T -> int)
    requires Increasing(s, key)
    ensures Increasing(Reverse(Newest(s, n)), key)
  {
    var r := Reverse(Newest(s, n));
    var off := |s| - Min(n, |s|);
    forall i, j | 0 <= i < j < |r| ensures key(r[i]) < key(r[j]) {
      assert r[i] == s[off + i] && r[j] == s[off + j];
    }
  }

  /** A window at least as large as the sequence holds all of it. */
  lemma NewestCoversShort<T>(s: seq<T>, n: nat)
    requires |s| <= n
    ensures forall i :: 0 <= i < |s| ==> s[i] in Newest(s, n)
  {
    forall i | 0 <= i < |s| ensures s[i] in Newest(s, n) {
      assert Newest(s, n)[|s| - 1 - i] == s[i];
    }
  }

  /** Over a key-increasing sequence the window is key-decreasing, and everything
      it leaves out is older than everything it holds. */
  lemma NewestAreNewest<T>(s: seq<T>, n: nat, key: T -> int)
    requires Increasing(s, key)
    ensures var r := Newest(s, n);
      && (forall i, j :: 0 <= i < j < |r| ==> key(r[j]) < key(r[i]))
      && (forall i, j :: 0 <= i < |s| - |r| && 0 <= j < |r| ==> key(s[i]) < key(r[j]))
  {
  }

  /** `r` is the newest-first window of at most `n` elements of `s` by `key`:
      as long as `n` allows, drawn from `s`, in strictly descending key order;
      an element left out is older than everything `r` holds and is left out of
      a full window only; a sequence no longer than `n` fits whole. */
  ghost predicate NewestFirst<T>(r: seq<T>, s: seq<T>, n: nat, key: T -> int) {
    && |r| == Min(n, |s|)
    && (forall i :: 0 <= i < |r| ==> r[i] in s)
    && (forall i, j :: 0 <= i < j < |r| ==> key(r[j]) < key(r[i]))
    && (forall x :: x in s && x !in r ==> |r| == n && forall j :: 0 <= j < |r| ==> key(x) < key(r[j]))
    && (|s| <= n ==> forall x :: x in s ==> x in r)
  }

  /** The window of a key-increasing sequence holds its newest elements. */
  lemma NewestWindow<T>(s: seq<T>, n: nat, key: T -> int)
    requires Increasing(s, key)
    ensures NewestFirst(Newest(s, n), s, n, key)
  {
    var r := Newest(s, n);
    NewestAreNewest(s, n, key);
    forall i | 0 <= i < |r| ensures r[i] in s {
      assert r[i] == s[|s| - 1 - i];
    }
    assert forall k :: |s| - |r| <= k < |s| ==> s[k] in r by {
      forall k | |s| - |r| <= k < |s| ensures s[k] in r {
        assert r[|s| - 1 - k] == s[k];
      }
    }
    forall x | x in s && x !in r
      ensures |r| == n && forall j :: 0 <= j < |r| ==> key(x) < key(r[j])
    {
      var i :| 0 <= i < |s| && s[i] == x;
    }
    if |s| <= n {
      NewestCoversShort(s, n);
    }
  }

  /** Neighbours in non-increasing key order make every pair so. */
  lemma {:induction false} DescendingByKey<T>(s: seq<T>, key: T -> int, i: nat, j: nat)
    requires forall k :: 0 < k < |s| ==> key(s[k]) <= key(s[k - 1])
    requires i <= j < |s|
    ensures key(s[j]) <= key(s[i])
    decreases j - i
  {
    if i < j {
      DescendingByKey(s, key, i + 1, j);
    }
  }

  /** The first `n` elements of a key-descending permutation of `s` are a top-`n`
      of `s`: an element left out of a full window is no newer than any it holds,
      and a sequence no longer than `n` fits whole. */
  lemma TopOfDescending<T>(sorted: seq<T>, s: seq<T>, n: nat, key: T -> int)
    requires multiset(sorted) == multiset(s)
    requires forall k :: 0 < k < |sorted| ==> key(sorted[k]) <= key(sorted[k - 1])
    ensures var r := sorted[..Min(n, |sorted|)];
      && (forall x :: x in r ==> x in s)
      && (forall x :: x in s && x !in r ==> |r| == n && forall j :: 0 <= j < |r| ==> key(r[j]) >= key(x))
      && (|s| <= n ==> forall x :: x in s ==> x in r)
  {
    var r := sorted[..Min(n, |sorted|)];
    assert |sorted| == |s| by {
      assert |multiset(sorted)| == |multiset(s)|;
    }
    forall x | x in r ensures x in s {
      assert x in multiset(sorted);
    }
    forall x | x in s && x !in r
      ensures |r| == n && forall j :: 0 <= j < |r| ==> key(r[j]) >= key(x)
    {
      assert x in multiset(sorted);
      var k :| 0 <= k < |sorted| && sorted[k] == x;
      forall j | 0 <= j < |r| ensures key(r[j]) >= key(x) {
        DescendingByKey(sorted, key, j, k);
      }
    }
    if |s| <= n {
      assert r == sorted;
      forall x | x in s ensures x in r {
        assert x in multiset(sorted);
      }
    }
  }

  // ---------------------------------------------------------------------
  // Descending sort (Python's `list.sort(key=..., reverse=True)`)
  // ---------------------------------------------------------------------

  /** `geq` compares every pair one way or the other. */
  ghost predicate Total<T(!new)>(geq: (T, T) -> bool) {
    forall a, b :: geq(a, b) || geq(b, a)
  }

  /** Neighbours are in descending order. */
  predicate SortedDesc<T>(s: seq<T>, geq: (T, T) -> bool) {
    forall i :: 0 < i < |s| ==> geq(s[i - 1], s[i])
  }

  /** Inserts `x` before the first element it is not below. */
  function InsertDesc<T>(x: T, s: seq<T>, geq: (T, T) -> bool): (r: seq<T>)
    ensures multiset(r) == multiset(s) + multiset{x}
  {
    if s == [] then [x]
    else if geq(x, s[0]) then [x] + s
    else
      assert s == [s[0]] + s[1..];
      [s[0]] + InsertDesc(x, s[1..], geq)
  }

  function SortDesc<T>(s: seq<T>, geq: (T, T) -> bool): (r: seq<T>)
    ensures multiset(r) == multiset(s)
  {
    if s == [] then []
    else
      assert s == [s[0]] + s[1..];
      InsertDesc(s[0], SortDesc(s[1..], geq), geq)
  }

  lemma {:induction false} InsertDescSorted<T(!new)>(x: T, s: seq<T>, geq: (T, T) -> bool)
    requires Total(geq) && SortedDesc(s, geq)
    ensures SortedDesc(InsertDesc(x, s, geq), geq)
    ensures |InsertDesc(x, s, geq)| == |s| + 1
    ensures InsertDesc(x, s, geq)[0] == x || (s != [] && InsertDesc(x, s, geq)[0] == s[0])
  {
    if s != [] && !geq(x, s[0]) {
      InsertDescSorted(x, s[1..], geq);
    }
  }

  /** The sort returns its input, permuted into descending order. */
  lemma {:induction false} SortDescSorted<T(!new)>(s: seq<T>, geq: (T, T) -> bool)
    requires Total(geq)
    ensures SortedDesc(SortDesc(s, geq), geq)
    ensures |SortDesc(s, geq)| == |s|
    ensures multiset(SortDesc(s, geq)) == multiset(s)
  {
    if s != [] {
      SortDescSorted(s[1..], geq);
      InsertDescSorted(s[0], SortDesc(s[1..], geq), geq);
    }
  }
}
