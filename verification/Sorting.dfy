/** Python's `sorted(range(n), key=...)` as a function, and permutations of index ranges. */
module Sorting {
  import opened Lists

  lemma IotaSnoc(n: nat)
    ensures Iota(0, n + 1) == Iota(0, n) + [n as int]
    ensures multiset(Iota(0, n + 1)) == multiset(Iota(0, n)) + multiset{n as int}
  {
    assert Iota(0, n + 1) == Iota(0, n) + [n as int];
  }

  ghost predicate IsPermutation(p: seq<int>, n: nat) {
    multiset(p) == multiset(Iota(0, n))
  }

  predicate InRange(p: seq<int>, n: int) {
    forall i :: 0 <= i < |p| ==> 0 <= p[i] < n
  }

  function Select<T>(s: seq<T>, p: seq<int>): (r: seq<T>)
    requires InRange(p, |s|)
    ensures |r| == |p| && forall i :: 0 <= i < |p| ==> r[i] == s[p[i]]
  {
    seq(|p|, i requires 0 <= i < |p| => s[p[i]])
  }

  /** Puts index `i` behind every index whose key is not larger (the sort is stable). */
  function Insert(keys: seq<int>, sorted: seq<int>, i: int): (r: seq<int>)
    requires 0 <= i < |keys| && InRange(sorted, i)
    ensures |r| == |sorted| + 1 && InRange(r, i + 1)
  {
    if sorted == [] || keys[sorted[|sorted| - 1]] <= keys[i] then sorted + [i]
    else Insert(keys, sorted[..|sorted| - 1], i) + [sorted[|sorted| - 1]]
  }

  /** The indices below `n` sorted by key, equal keys in index order. */
  function SortedBelow(keys: seq<int>, n: nat): (r: seq<int>)
    requires n <= |keys|
    ensures |r| == n && InRange(r, n)
  {
    if n == 0 then [] else Insert(keys, SortedBelow(keys, n - 1), n - 1)
  }

  function SortedRange(keys: seq<int>): (r: seq<int>)
    ensures |r| == |keys| && InRange(r, |keys|)
  {
    SortedBelow(keys, |keys|)
  }

  predicate NonDecreasing(s: seq<int>) {
    forall i, j :: 0 <= i <= j < |s| ==> s[i] <= s[j]
  }

  predicate Before(keys: seq<int>, i: int, j: int)
    requires 0 <= i < |keys| && 0 <= j < |keys|
  {
    keys[i] < keys[j] || (keys[i] == keys[j] && i < j)
  }

  ghost predicate InKeyOrder(keys: seq<int>, r: seq<int>)
    requires InRange(r, |keys|)
  {
    forall i, j :: 0 <= i < j < |r| ==> Before(keys, r[i], r[j])
  }

  lemma {:induction false} InsertMultiset(keys: seq<int>, sorted: seq<int>, i: int)
    requires 0 <= i < |keys| && InRange(sorted, i)
    ensures multiset(Insert(keys, sorted, i)) == multiset(sorted) + multiset{i}
  {
    if sorted != [] && keys[sorted[|sorted| - 1]] > keys[i] {
      var m := |sorted| - 1;
      InsertMultiset(keys, sorted[..m], i);
      assert sorted == sorted[..m] + [sorted[m]];
    }
  }

  lemma OrderSnoc(keys: seq<int>, r: seq<int>, x: int)
    requires InRange(r, |keys|) && 0 <= x < |keys| && InKeyOrder(keys, r)
    requires forall j :: 0 <= j < |r| ==> Before(keys, r[j], x)
    ensures InKeyOrder(keys, r + [x])
  {}

  lemma {:induction false} InsertKeepsOrder(keys: seq<int>, sorted: seq<int>, i: int)
    requires 0 <= i < |keys| && InRange(sorted, i)
    requires InKeyOrder(keys, sorted)
    ensures InKeyOrder(keys, Insert(keys, sorted, i))
  {
    if sorted == [] || keys[sorted[|sorted| - 1]] <= keys[i] {
      OrderSnoc(keys, sorted, i);
    } else {
      var m := |sorted| - 1;
      var inner := Insert(keys, sorted[..m], i);
      InsertKeepsOrder(keys, sorted[..m], i);
      InsertMultiset(keys, sorted[..m], i);
      forall j | 0 <= j < |inner| ensures Before(keys, inner[j], sorted[m]) {
        assert inner[j] in multiset(inner);
        if inner[j] != i {
          assert inner[j] in sorted[..m];
        }
      }
      OrderSnoc(keys, inner, sorted[m]);
    }
  }

  lemma {:induction false} SortedBelowOrder(keys: seq<int>, n: nat)
    requires n <= |keys|
    ensures InKeyOrder(keys, SortedBelow(keys, n))
  {
    if n > 0 {
      SortedBelowOrder(keys, n - 1);
      InsertKeepsOrder(keys, SortedBelow(keys, n - 1), n - 1);
    }
  }

  lemma OneMoreIndex(keys: seq<int>, sorted: seq<int>, n: nat)
    requires n < |keys| && InRange(sorted, n) && multiset(sorted) == multiset(Iota(0, n))
    ensures multiset(Insert(keys, sorted, n)) == multiset(Iota(0, n + 1))
  {
    InsertMultiset(keys, sorted, n);
    IotaSnoc(n);
  }

  lemma {:induction false} SortedBelowMultiset(keys: seq<int>, n: nat)
    requires n <= |keys|
    ensures multiset(SortedBelow(keys, n)) == multiset(Iota(0, n))
  {
    if n == 0 {
      assert Iota(0, 0) == [];
    } else {
      SortedBelowMultiset(keys, n - 1);
      OneMoreIndex(keys, SortedBelow(keys, n - 1), n - 1);
    }
  }

  /** `SortedRange` is the stable sort: a permutation, ascending in the keys, ties by index. */
  lemma SortedRangeIsStableSort(keys: seq<int>)
    ensures IsPermutation(SortedRange(keys), |keys|)
    ensures InKeyOrder(keys, SortedRange(keys))
    ensures NonDecreasing(Select(keys, SortedRange(keys)))
  {
    SortedBelowOrder(keys, |keys|);
    SortedBelowMultiset(keys, |keys|);
  }

  // ---------------------------------------------------------------- permutations

  lemma PermutationRange(p: seq<int>, n: nat)
    requires IsPermutation(p, n)
    ensures |p| == n
    ensures InRange(p, n)
  {
    assert |multiset(p)| == |p| && |multiset(Iota(0, n))| == n;
    forall i | 0 <= i < |p| ensures 0 <= p[i] < n {
      assert p[i] in multiset(p);
      assert p[i] in Iota(0, n);
    }
  }

  lemma SelectDropped<T>(s: seq<T>, q: seq<int>, j: nat)
    requires InRange(q, |s|) && j < |q|
    ensures InRange(Dropped(q, j), |s|)
    ensures multiset(Select(s, q)) == multiset(Select(s, Dropped(q, j))) + multiset{s[q[j]]}
  {
    assert Select(s, q) == Select(s, q[..j]) + [s[q[j]]] + Select(s, q[j + 1..]);
    assert Select(s, Dropped(q, j)) == Select(s, q[..j]) + Select(s, q[j + 1..]);
  }

  lemma {:induction false} SelectMultiset<T>(s: seq<T>, p: seq<int>, q: seq<int>)
    requires InRange(p, |s|) && InRange(q, |s|) && multiset(p) == multiset(q)
    ensures multiset(Select(s, p)) == multiset(Select(s, q))
    decreases |p|
  {
    if p == [] {
      assert |multiset(q)| == |q|;
    } else {
      DroppedMultiset(p, 0);
      var j :| 0 <= j < |q| && q[j] == p[0];
      DroppedMultiset(q, j);
      SelectDropped(s, p, 0);
      SelectDropped(s, q, j);
      SelectMultiset(s, Dropped(p, 0), Dropped(q, j));
    }
  }

  lemma TopValue(s: seq<int>, m: nat)
    requires NonDecreasing(s) && IsPermutation(s, m + 1)
    ensures |s| == m + 1 && s[m] == m
  {
    PermutationRange(s, m + 1);
    assert Iota(0, m + 1)[m] == m;
    assert m in multiset(s);
    var j :| 0 <= j < |s| && s[j] == m;
    assert s[j] <= s[m];
  }

  lemma WithoutTop(s: seq<int>, m: nat)
    requires IsPermutation(s, m + 1) && |s| == m + 1 && s[m] == m
    ensures IsPermutation(s[..m], m)
  {
    assert s == s[..m] + [s[m]];
    IotaSnoc(m);
    assert multiset(s[..m]) == multiset(s) - multiset{m as int};
  }

  lemma {:induction false} SortedRangeOfValues(s: seq<int>, n: nat)
    requires NonDecreasing(s) && IsPermutation(s, n)
    ensures s == Iota(0, n)
  {
    if n == 0 {
      PermutationRange(s, n);
    } else {
      TopValue(s, n - 1);
      WithoutTop(s, n - 1);
      SortedRangeOfValues(s[..n - 1], n - 1);
      IotaSnoc(n - 1);
    }
  }

  /** Sorting a permutation by its own values inverts it. */
  lemma SortInvertsPermutation(p: seq<int>, n: nat)
    requires IsPermutation(p, n)
    ensures |p| == n
    ensures forall j :: 0 <= j < n ==> p[SortedRange(p)[j]] == j
  {
    PermutationRange(p, n);
    SortedRangeIsStableSort(p);
    var r := SortedRange(p);
    assert Select(p, Iota(0, n)) == p;
    SelectMultiset(p, r, Iota(0, n));
    assert multiset(Select(p, r)) == multiset(p);
    SortedRangeOfValues(Select(p, r), n);
  }

  lemma PermutationDistinct(p: seq<int>, n: nat, i: nat, j: nat)
    requires IsPermutation(p, n) && i < j < |p|
    ensures p[i] != p[j]
  {
    if p[i] == p[j] {
      var x := p[i];
      assert p == p[..i] + [x] + p[i + 1..j] + [x] + p[j + 1..];
      assert multiset(p)[x] >= 2;
      IotaOnce(n, x);
    }
  }

  lemma {:induction false} IotaOnce(n: nat, x: int)
    ensures multiset(Iota(0, n))[x] <= 1
    ensures multiset(Iota(0, n))[x] == 1 ==> x < n
  {
    if n == 0 {
      assert Iota(0, 0) == [];
    } else {
      assert Iota(0, n) == Iota(0, n - 1) + [n - 1];
      IotaOnce(n - 1, x);
    }
  }

  // ---------------------------------------------------------------- descending order

  function Reversed(s: seq<int>): (r: seq<int>)
    ensures |r| == |s| && forall i :: 0 <= i < |r| ==> r[i] == s[|s| - 1 - i]
  {
    seq(|s|, i requires 0 <= i < |s| => s[|s| - 1 - i])
  }

  lemma {:induction false} ReversedMultiset(s: seq<int>)
    ensures multiset(Reversed(s)) == multiset(s)
  {
    if s != [] {
      var m := |s| - 1;
      ReversedMultiset(s[..m]);
      assert s == s[..m] + [s[m]] && Reversed(s) == [s[m]] + Reversed(s[..m]);
    }
  }

  /** A sort that is turned round lists the largest keys first, ties by descending index. */
  lemma ReversedDescends(keys: seq<int>, i: nat, j: nat)
    requires i < j < |keys|
    ensures IsPermutation(Reversed(SortedRange(keys)), |keys|) && InRange(Reversed(SortedRange(keys)), |keys|)
    ensures Before(keys, Reversed(SortedRange(keys))[j], Reversed(SortedRange(keys))[i])
  {
    SortedRangeIsStableSort(keys);
    ReversedMultiset(SortedRange(keys));
  }
}
