/** Filtering, sorting and taking a prefix, as the candidate pipeline does them. sort.Slice is not stable, so only
    its contract is used: the result is some sorted permutation. */
module Ranking {

  function Filter<T(!new)>(xs: seq<T>, p: T -> bool): (ys: seq<T>)
    ensures forall y :: y in ys <==> y in xs && p(y)
    ensures multiset(ys) <= multiset(xs)
  {
    if xs == [] then []
    else
      assert xs == xs[..|xs| - 1] + [xs[|xs| - 1]];
      Filter(xs[..|xs| - 1], p) + if p(xs[|xs| - 1]) then [xs[|xs| - 1]] else []
  }

  ghost predicate SortedBy<T(!new)>(xs: seq<T>, key: T -> real) {
    forall i, j | 0 <= i < j < |xs| :: key(xs[i]) <= key(xs[j])
  }

  /** chosen holds, in order, min(n, |all|) elements of all with the smallest keys. */
  ghost predicate SmallestOf<T(!new)>(chosen: seq<T>, all: seq<T>, key: T -> real, n: nat) {
    && multiset(chosen) <= multiset(all)
    && |chosen| == (if n <= |all| then n else |all|)
    && SortedBy(chosen, key)
    && forall x, y | x in all && x !in chosen && y in chosen :: key(y) <= key(x)
  }

  lemma InsertSorted<T(!new)>(ys: seq<T>, k: nat, x: T, key: T -> real) returns (zs: seq<T>)
    requires k <= |ys| && SortedBy(ys, key)
    requires k > 0 ==> key(ys[k - 1]) <= key(x)
    requires forall j | k <= j < |ys| :: key(x) <= key(ys[j])
    ensures zs == ys[..k] + [x] + ys[k..]
    ensures SortedBy(zs, key)
  {
    zs := ys[..k] + [x] + ys[k..];
    assert forall i | 0 <= i < k :: zs[i] == ys[i] && key(ys[i]) <= key(x);
    assert forall i | k < i < |zs| :: zs[i] == ys[i - 1];
    assert zs[k] == x;
  }

  lemma InsertKeepsElements<T>(ys: seq<T>, k: nat, x: T)
    requires k <= |ys|
    ensures multiset(ys[..k] + [x] + ys[k..]) == multiset(ys) + multiset{x}
  {
    Split(ys, k);
  }

  method SortSlice<T(==,!new)>(xs: seq<T>, key: T -> real) returns (ys: seq<T>)
    ensures multiset(ys) == multiset(xs) && SortedBy(ys, key)
  {
    ys := [];
    for i := 0 to |xs|
      invariant multiset(ys) == multiset(xs[..i]) && SortedBy(ys, key)
    {
      var k := |ys|;
      while 0 < k && key(xs[i]) < key(ys[k - 1])
        invariant 0 <= k <= |ys|
        invariant forall j | k <= j < |ys| :: key(xs[i]) <= key(ys[j])
      {
        k := k - 1;
      }
      ghost var zs := InsertSorted(ys, k, xs[i], key);
      InsertKeepsElements(ys, k, xs[i]);
      assert xs[..i + 1] == xs[..i] + [xs[i]];
      ys := ys[..k] + [xs[i]] + ys[k..];
    }
    assert xs[..|xs|] == xs;
  }

  function Take<T>(xs: seq<T>, n: nat): seq<T> {
    if n <= |xs| then xs[..n] else xs
  }

  lemma Split<T>(xs: seq<T>, k: nat)
    requires k <= |xs|
    ensures multiset(xs) == multiset(xs[..k]) + multiset(xs[k..])
  {
    assert xs == xs[..k] + xs[k..];
  }

  lemma PermutationLength<T>(xs: seq<T>, ys: seq<T>)
    requires multiset(xs) == multiset(ys)
    ensures |xs| == |ys|
  {
    assert |multiset(xs)| == |multiset(ys)|;
  }

  /** A prefix of any sorted permutation holds the smallest elements. */
  lemma PrefixOfSorted<T(!new)>(xs: seq<T>, sorted: seq<T>, key: T -> real, n: nat)
    requires multiset(sorted) == multiset(xs) && SortedBy(sorted, key)
    ensures SmallestOf(Take(sorted, n), xs, key, n)
  {
    PermutationLength(xs, sorted);
    var k: nat := if n <= |xs| then n else |xs|;
    var chosen := sorted[..k];
    assert Take(sorted, n) == chosen;
    Split(sorted, k);
    forall x, y | x in xs && x !in chosen && y in chosen ensures key(y) <= key(x) {
      assert x in multiset(sorted);
      var i :| 0 <= i < |sorted| && sorted[i] == x;
      var j :| 0 <= j < k && sorted[j] == y;
      assert forall a | 0 <= a < k :: sorted[a] == chosen[a];
    }
  }

  ghost predicate Distinct<T(!new)>(xs: seq<T>) {
    forall i, j | 0 <= i < j < |xs| :: xs[i] != xs[j]
  }

  lemma {:induction false} DistinctIsMultiplicityOne<T(!new)>(xs: seq<T>)
    ensures Distinct(xs) <==> forall x :: multiset(xs)[x] <= 1
  {
    if xs != [] {
      var init, last := xs[..|xs| - 1], xs[|xs| - 1];
      DistinctIsMultiplicityOne(init);
      assert xs == init + [last];
      assert multiset(xs) == multiset(init) + multiset{last};
      if Distinct(xs) {
        assert last !in init;
        assert multiset(init)[last] == 0;
      } else if Distinct(init) {
        assert last in init;
        assert multiset(xs)[last] >= 2;
      } else {
        var x :| multiset(init)[x] > 1;
        assert multiset(xs)[x] > 1;
      }
    }
  }

  lemma SubsetOfDistinct<T(!new)>(xs: seq<T>, ys: seq<T>)
    requires Distinct(ys) && multiset(xs) <= multiset(ys)
    ensures Distinct(xs)
  {
    DistinctIsMultiplicityOne(xs);
    DistinctIsMultiplicityOne(ys);
    assert forall x :: multiset(xs)[x] <= multiset(ys)[x];
  }
}
