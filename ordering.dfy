/** Sums and the descending sort the dashboard's reductions are built from
    (src/app/page.tsx:131-134, 140-153; src/components/GitHubActionsAnalytics.tsx:82-84).
    `Array.prototype.sort` is stable, so a sort by a numeric key is modelled
    as a stable insertion sort. */
module Ordering {
  /** `xs.reduce((sum, repo) => sum + field(repo), 0)`: left to right. */
  function Sum<T>(xs: seq<T>, field: T -> nat): nat
    decreases |xs|
  {
    if xs == [] then 0 else Sum(xs[..|xs| - 1], field) + field(xs[|xs| - 1])
  }

  lemma {:induction false} SumConcat<T>(a: seq<T>, b: seq<T>, field: T -> nat)
    ensures Sum(a + b, field) == Sum(a, field) + Sum(b, field)
    decreases |b|
  {
    if b == [] {
      assert a + b == a;
    } else {
      assert (a + b)[..|a + b| - 1] == a + b[..|b| - 1];
      SumConcat(a, b[..|b| - 1], field);
    }
  }

  /** Taking the element at `j` out of a sequence. */
  lemma SumWithout<T>(b: seq<T>, j: nat, field: T -> nat)
    requires j < |b|
    ensures Sum(b, field) == Sum(b[..j] + b[j + 1..], field) + field(b[j])
    ensures multiset(b[..j] + b[j + 1..]) == multiset(b) - multiset{b[j]}
  {
    var x, front, back := b[j], b[..j], b[j + 1..];
    SplitAt(b, j);
    assert Sum([x], field) == field(x) by {
      assert [x][..0] == [];
    }
    calc {
      Sum(b, field);
      { SumConcat(front + [x], back, field); }
      Sum(front + [x], field) + Sum(back, field);
      { SumConcat(front, [x], field); }
      Sum(front, field) + field(x) + Sum(back, field);
      { SumConcat(front, back, field); }
      Sum(front + back, field) + field(x);
    }
    MultisetWithout(b, j);
  }

  lemma SplitAt<T>(b: seq<T>, j: nat)
    requires j < |b|
    ensures b == (b[..j] + [b[j]]) + b[j + 1..]
  {
  }

  lemma MultisetWithout<T>(b: seq<T>, j: nat)
    requires j < |b|
    ensures multiset(b[..j] + b[j + 1..]) == multiset(b) - multiset{b[j]}
  {
    SplitAt(b, j);
  }

  /** A sum does not depend on the order of the elements. */
  lemma {:induction false} SumPermutation<T>(a: seq<T>, b: seq<T>, field: T -> nat)
    requires multiset(a) == multiset(b)
    ensures Sum(a, field) == Sum(b, field)
    decreases |a|
  {
    if a != [] {
      var x := a[|a| - 1];
      var front := a[..|a| - 1];
      MultisetOfSnoc(a);
      assert x in multiset(b);
      var j :| 0 <= j < |b| && b[j] == x;
      SumWithout(b, j, field);
      SumPermutation(front, b[..j] + b[j + 1..], field);
    }
  }

  predicate NonIncreasing<T>(s: seq<T>, key: T -> int) {
    forall i, j :: 0 <= i < j < |s| ==> key(s[i]) >= key(s[j])
  }

  /** Places `x` after every element whose key is at least its own. */
  function Insert<T>(x: T, s: seq<T>, key: T -> int): (r: seq<T>)
    ensures multiset(r) == multiset(s) + multiset{x}
    decreases |s|
  {
    if s == [] then [x]
    else if key(x) > key(s[0]) then [x] + s
    else
      var tail := Insert(x, s[1..], key);
      assert s == [s[0]] + s[1..];
      [s[0]] + tail
  }

  lemma {:induction false} InsertKeepsOrder<T>(x: T, s: seq<T>, key: T -> int)
    requires NonIncreasing(s, key)
    ensures NonIncreasing(Insert(x, s, key), key)
    decreases |s|
  {
    if s != [] && key(x) <= key(s[0]) {
      var tail := Insert(x, s[1..], key);
      InsertKeepsOrder(x, s[1..], key);
      forall j | 0 <= j < |tail|
        ensures key(s[0]) >= key(tail[j])
      {
        assert tail[j] in multiset(s[1..]) + multiset{x};
        if tail[j] != x {
          assert tail[j] in s[1..];
        }
      }
    }
  }

  /** `sort((a, b) => key(b) - key(a))`: a stable sort, largest key first. */
  function SortDesc<T>(s: seq<T>, key: T -> int): (r: seq<T>)
    ensures multiset(r) == multiset(s)
    ensures NonIncreasing(r, key)
    decreases |s|
  {
    if s == [] then []
    else
      var last := s[|s| - 1];
      var front := SortDesc(s[..|s| - 1], key);
      InsertKeepsOrder(last, front, key);
      MultisetOfSnoc(s);
      Insert(last, front, key)
  }

  lemma MultisetOfSnoc<T>(s: seq<T>)
    requires s != []
    ensures multiset(s) == multiset(s[..|s| - 1]) + multiset{s[|s| - 1]}
  {
    assert s == s[..|s| - 1] + [s[|s| - 1]];
  }

  function Min(a: nat, b: nat): nat {
    if a <= b then a else b
  }

  /** The first `n` elements by descending key. */
  function TopBy<T>(xs: seq<T>, key: T -> int, n: nat): (top: seq<T>)
    ensures |top| == Min(n, |xs|)
    ensures NonIncreasing(top, key)
    ensures multiset(top) <= multiset(xs)
  {
    var sorted := SortDesc(xs, key);
    assert |sorted| == |multiset(sorted)| == |xs|;
    assert sorted == sorted[..Min(n, |xs|)] + sorted[Min(n, |xs|)..];
    sorted[..Min(n, |xs|)]
  }

  /** In a list sorted by descending key, nothing after position `k` has a
      larger key than anything before it. */
  lemma SortedSplit<T>(sorted: seq<T>, key: T -> int, k: nat)
    requires NonIncreasing(sorted, key) && k <= |sorted|
    ensures forall r <- sorted[k..], t <- sorted[..k] :: key(r) <= key(t)
  {
    forall r <- sorted[k..], t <- sorted[..k]
      ensures key(r) <= key(t)
    {
      var q :| 0 <= q < |sorted| - k && sorted[k..][q] == r;
      var p :| 0 <= p < k && sorted[..k][p] == t;
      assert sorted[p] == t && sorted[k + q] == r;
    }
  }

  lemma MultisetSplit<T>(s: seq<T>, k: nat)
    requires k <= |s|
    ensures multiset(s) - multiset(s[..k]) == multiset(s[k..])
  {
    assert s == s[..k] + s[k..];
  }

  /** No element left out of a top list beats one in it. */
  lemma TopByIsTop<T>(xs: seq<T>, key: T -> int, n: nat)
    ensures var top := TopBy(xs, key, n);
            forall r, t :: r in multiset(xs) - multiset(top) && t in top ==> key(r) <= key(t)
  {
    var sorted := SortDesc(xs, key);
    var k := Min(n, |xs|);
    assert k <= |sorted| by {
      assert |sorted| == |multiset(sorted)| == |xs|;
    }
    var top := sorted[..k];
    var rest := sorted[k..];
    assert TopBy(xs, key, n) == top;
    MultisetSplit(sorted, k);
    SortedSplit(sorted, key, k);
    forall r, t | r in multiset(xs) - multiset(top) && t in top
      ensures key(r) <= key(t)
    {
      assert r in rest;
    }
  }

  /** A property every element has is kept by any sub-multiset. */
  lemma SubMultisetKeeps<T>(xs: seq<T>, ys: seq<T>, p: T -> bool)
    requires multiset(ys) <= multiset(xs)
    requires forall x <- xs :: p(x)
    ensures forall y <- ys :: p(y)
  {
    forall y <- ys
      ensures p(y)
    {
      assert y in multiset(ys);
    }
  }
}
