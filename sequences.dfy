/**
 * The two JavaScript array operations the core uses, `filter` and `sort`,
 * with what they promise: a filter keeps exactly the matching elements in
 * their order, a sort returns a sorted permutation.
 */
module Sequences {

  // ---------------------------------------------------------------------------
  // filter

  /** `s.filter(p)`: the elements of `s` that satisfy `p`, in their order. */
  function Filter<T>(p: T -> bool, s: seq<T>): (r: seq<T>)
    ensures |r| <= |s|
    ensures forall i :: 0 <= i < |r| ==> p(r[i])
  {
    if |s| == 0 then []
    else if p(s[0]) then [s[0]] + Filter(p, s[1..])
    else Filter(p, s[1..])
  }

  /**
   * Every element occurs in the filtered sequence exactly as often as in the
   * input when it satisfies `p`, and not at all otherwise.
   */
  lemma {:induction false} FilterCount<T>(p: T -> bool, s: seq<T>, x: T)
    ensures multiset(Filter(p, s))[x] == if p(x) then multiset(s)[x] else 0
  {
    if |s| != 0 {
      FilterCount(p, s[1..], x);
      assert s == [s[0]] + s[1..];
    }
  }

  /** Soundness and completeness of `filter` for membership. */
  lemma FilterMembership<T>(p: T -> bool, s: seq<T>, x: T)
    ensures x in Filter(p, s) <==> x in s && p(x)
  {
    FilterCount(p, s, x);
    assert x in Filter(p, s) <==> x in multiset(Filter(p, s));
  }

  /** `a` can be obtained from `b` by deleting elements. */
  predicate IsSubsequence<T(==)>(a: seq<T>, b: seq<T>)
    decreases |b|
  {
    |a| == 0
    || (|b| != 0 && ((a[0] == b[0] && IsSubsequence(a[1..], b[1..])) || IsSubsequence(a, b[1..])))
  }

  /** `filter` keeps the input order: its result is a subsequence of its input. */
  lemma {:induction false} FilterIsSubsequence<T>(p: T -> bool, s: seq<T>)
    ensures IsSubsequence(Filter(p, s), s)
  {
    if |s| != 0 {
      FilterIsSubsequence(p, s[1..]);
      if p(s[0]) {
        assert Filter(p, s)[1..] == Filter(p, s[1..]);
      }
    }
  }

  /** A filter that every element passes changes nothing. */
  lemma {:induction false} FilterAllPass<T>(p: T -> bool, s: seq<T>)
    requires forall i :: 0 <= i < |s| ==> p(s[i])
    ensures Filter(p, s) == s
  {
    if |s| != 0 {
      FilterAllPass(p, s[1..]);
      assert s == [s[0]] + s[1..];
    }
  }

  /** Filtering twice by the same predicate is filtering once. */
  lemma FilterIdempotent<T>(p: T -> bool, s: seq<T>)
    ensures Filter(p, Filter(p, s)) == Filter(p, s)
  {
    FilterAllPass(p, Filter(p, s));
  }

  // ---------------------------------------------------------------------------
  // sort

  /** `R` is a total order: total, antisymmetric and transitive. */
  ghost predicate TotalOrder<T(!new)>(R: (T, T) -> bool) {
    && (forall a, b :: R(a, b) || R(b, a))
    && (forall a, b :: R(a, b) && R(b, a) ==> a == b)
    && (forall a, b, c :: R(a, b) && R(b, c) ==> R(a, c))
  }

  /** Every element is related by `R` to every later one. */
  predicate SortedBy<T>(R: (T, T) -> bool, s: seq<T>) {
    forall i, j :: 0 <= i < j < |s| ==> R(s[i], s[j])
  }

  /** Insertion of `x` before the first element it precedes. */
  function Insert<T>(R: (T, T) -> bool, x: T, s: seq<T>): (r: seq<T>)
    ensures multiset(r) == multiset(s) + multiset{x}
  {
    if |s| == 0 then [x]
    else if R(x, s[0]) then [x] + s
    else
      assert s == [s[0]] + s[1..];
      [s[0]] + Insert(R, x, s[1..])
  }

  lemma {:induction false} InsertSorted<T(!new)>(R: (T, T) -> bool, x: T, s: seq<T>)
    requires TotalOrder(R)
    requires SortedBy(R, s)
    ensures SortedBy(R, Insert(R, x, s))
  {
    if |s| != 0 && !R(x, s[0]) {
      var tail := Insert(R, x, s[1..]);
      InsertSorted(R, x, s[1..]);
      forall k | 0 <= k < |tail| ensures R(s[0], tail[k]) {
        assert tail[k] in multiset(tail);
        if tail[k] != x {
          assert tail[k] in multiset(s[1..]);
          var m :| 0 <= m < |s[1..]| && s[1..][m] == tail[k];
          assert s[m + 1] == tail[k];
        }
      }
    }
  }

  /** A functional insertion sort: the sorted permutation of `s`. */
  function SortBy<T>(R: (T, T) -> bool, s: seq<T>): (r: seq<T>)
    ensures multiset(r) == multiset(s)
  {
    if |s| == 0 then []
    else
      assert s == [s[0]] + s[1..];
      Insert(R, s[0], SortBy(R, s[1..]))
  }

  lemma {:induction false} SortBySorted<T(!new)>(R: (T, T) -> bool, s: seq<T>)
    requires TotalOrder(R)
    ensures SortedBy(R, SortBy(R, s))
  {
    if |s| != 0 {
      SortBySorted(R, s[1..]);
      InsertSorted(R, s[0], SortBy(R, s[1..]));
    }
  }

  /** The head of a sorted sequence is related to each of its elements. */
  lemma SortedHeadFirst<T>(R: (T, T) -> bool, x: seq<T>, e: T)
    requires SortedBy(R, x) && (forall a :: R(a, a))
    requires e in multiset(x)
    ensures R(x[0], e)
  {
    var m :| 0 <= m < |x| && x[m] == e;
    if m != 0 {
      assert R(x[0], x[m]);
    }
  }

  /** Under a total order there is only one sorted arrangement of a multiset. */
  lemma {:induction false} SortedUnique<T(!new)>(R: (T, T) -> bool, x: seq<T>, y: seq<T>)
    requires TotalOrder(R)
    requires SortedBy(R, x) && SortedBy(R, y)
    requires multiset(x) == multiset(y)
    ensures x == y
    decreases |x|
  {
    assert |x| == |multiset(x)| == |multiset(y)| == |y|;
    if |x| != 0 {
      assert forall a :: R(a, a) by {
        forall a ensures R(a, a) { assert R(a, a) || R(a, a); }
      }
      assert x[0] in multiset(y) && y[0] in multiset(x) by {
        assert x[0] in x && y[0] in y;
      }
      SortedHeadFirst(R, y, x[0]);
      SortedHeadFirst(R, x, y[0]);
      assert x[0] == y[0];
      assert x == [x[0]] + x[1..];
      assert y == [y[0]] + y[1..];
      assert multiset(x[1..]) == multiset(x) - multiset{x[0]};
      assert multiset(y[1..]) == multiset(y) - multiset{y[0]};
      assert SortedBy(R, x[1..]) && SortedBy(R, y[1..]);
      SortedUnique(R, x[1..], y[1..]);
    }
  }

  /** Any sorted permutation of `s` is the one `SortBy` computes. */
  lemma SortedPermutationIsSortBy<T(!new)>(R: (T, T) -> bool, s: seq<T>, r: seq<T>)
    requires TotalOrder(R)
    requires SortedBy(R, r) && multiset(r) == multiset(s)
    ensures r == SortBy(R, s)
  {
    SortBySorted(R, s);
    SortedUnique(R, r, SortBy(R, s));
  }

  /** `a.sort(cmp)`: sorts `a` in place, here by insertion. */
  method SortInPlace<T(!new)>(a: array<T>, R: (T, T) -> bool)
    requires TotalOrder(R)
    modifies a
    ensures SortedBy(R, a[..])
    ensures multiset(a[..]) == multiset(old(a[..]))
  {
    var i := 0;
    while i < a.Length
      invariant 0 <= i <= a.Length
      invariant forall k, l :: 0 <= k < l < i ==> R(a[k], a[l])
      invariant multiset(a[..]) == multiset(old(a[..]))
    {
      var j := i;
      while 0 < j && !R(a[j - 1], a[j])
        invariant 0 <= j <= i
        invariant forall k, l :: 0 <= k < l <= i && k != j && l != j ==> R(a[k], a[l])
        invariant forall l :: j < l <= i ==> R(a[j], a[l])
        invariant multiset(a[..]) == multiset(old(a[..]))
      {
        a[j - 1], a[j] := a[j], a[j - 1];
        j := j - 1;
      }
      i := i + 1;
    }
  }
}
