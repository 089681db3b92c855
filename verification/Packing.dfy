/** The bin packers behind sequence packing: first-fit, concatenative, and the adjustment of
    the bin count (nemo_rl/data/packing/algorithms.py). */
module Packing {
  import opened Lists
  import opened Sorting

  /** Total length of the sequences in a bin. */
  function BinLoad(lens: seq<nat>, bin: seq<int>): nat
    requires InRange(bin, |lens|)
  {
    if bin == [] then 0 else BinLoad(lens, bin[..|bin| - 1]) + lens[bin[|bin| - 1]]
  }

  /** The load is the sum of the lengths of the bin's sequences. */
  lemma {:induction false} LoadIsSum(lens: seq<nat>, bin: seq<int>)
    requires InRange(bin, |lens|)
    ensures BinLoad(lens, bin) == Sum(Select(lens, bin))
  {
    if bin != [] {
      LoadIsSum(lens, bin[..|bin| - 1]);
      assert Select(lens, bin)[..|bin| - 1] == Select(lens, bin[..|bin| - 1]);
    }
  }

  predicate BinOk(lens: seq<nat>, cap: nat, bin: seq<int>) {
    bin != [] && InRange(bin, |lens|) && BinLoad(lens, bin) <= cap
  }

  predicate BinsOk(lens: seq<nat>, cap: nat, bins: seq<seq<int>>) {
    forall i :: 0 <= i < |bins| ==> BinOk(lens, cap, bins[i])
  }

  /** Every sequence is in exactly one bin; no bin is empty or over capacity. */
  ghost predicate IsPacking(lens: seq<nat>, cap: nat, bins: seq<seq<int>>) {
    BinsOk(lens, cap, bins) && IsPermutation(Flatten(bins), |lens|)
  }

  datatype Packed =
    | TooLong                           // ValueError: a sequence over capacity
    | TooFew                            // ValueError: fewer sequences than bins needed
    | NotPositive                       // ValueError: a length or the capacity is not positive
    | Bins(bins: seq<seq<int>>)

  ghost predicate SomeTooLong(lens: seq<nat>, cap: nat) {
    exists i :: 0 <= i < |lens| && lens[i] > cap
  }

  // ---------------------------------------------------------------- first fit

  /** `remaining[i]` is the room left in bin `i`. */
  ghost predicate Room(lens: seq<nat>, cap: nat, bins: seq<seq<int>>, remaining: seq<nat>) {
    && |remaining| == |bins| && BinsOk(lens, cap, bins)
    && forall i :: 0 <= i < |bins| ==> BinLoad(lens, bins[i]) + remaining[i] == cap
  }

  /** None of the items fits into the room. */
  predicate NoneFits(lens: seq<nat>, items: seq<int>, room: int) {
    forall i :: 0 <= i < |items| ==> 0 <= items[i] < |lens| && room < lens[items[i]]
  }

  /** No sequence has room in a bin before its own. */
  ghost predicate Settled(lens: seq<nat>, cap: nat, bins: seq<seq<int>>)
    requires BinsOk(lens, cap, bins)
  {
    forall k, j :: 0 <= k < j < |bins| ==> NoneFits(lens, bins[j], cap - BinLoad(lens, bins[k]))
  }

  method FindBin(remaining: seq<nat>, length: nat) returns (i: nat)
    ensures i <= |remaining| && forall k :: 0 <= k < i ==> remaining[k] < length
    ensures i < |remaining| ==> remaining[i] >= length
  {
    i := 0;
    while i < |remaining| && remaining[i] < length
      invariant i <= |remaining| && forall k :: 0 <= k < i ==> remaining[k] < length
    {
      i := i + 1;
    }
  }

  lemma BinLoadSnoc(lens: seq<nat>, bin: seq<int>, x: int)
    requires InRange(bin, |lens|) && 0 <= x < |lens|
    ensures InRange(bin + [x], |lens|) && BinLoad(lens, bin + [x]) == BinLoad(lens, bin) + lens[x]
  {
    assert (bin + [x])[..|bin|] == bin;
  }

  /** Putting `more` into one bin adds just that to the contents. */
  lemma ExtendBin(bins: seq<seq<int>>, i: nat, bin: seq<int>, more: multiset<int>)
    requires i < |bins| && multiset(bin) == multiset(bins[i]) + more
    ensures multiset(Flatten(bins[i := bin])) == multiset(Flatten(bins)) + more
  {
    FlattenWithout(bins, i);
    FlattenWithout(bins[i := bin], i);
    assert bins[i := bin][..i] + bins[i := bin][i + 1..] == bins[..i] + bins[i + 1..];
  }

  lemma LoadOfOne(lens: seq<nat>, x: int)
    requires 0 <= x < |lens|
    ensures InRange([x], |lens|) && BinLoad(lens, [x]) == lens[x]
  {
    BinLoadSnoc(lens, [], x);
    assert [] + [x] == [x];
  }

  /** The first bin from `k` on with room for `x`, or the number of bins. */
  function FirstWithRoom(lens: seq<nat>, cap: nat, bins: seq<seq<int>>, x: int, k: nat): (i: nat)
    requires BinsOk(lens, cap, bins) && 0 <= x < |lens| && k <= |bins|
    ensures k <= i <= |bins| && (i < |bins| ==> BinLoad(lens, bins[i]) + lens[x] <= cap)
    ensures forall j :: k <= j < i ==> cap < BinLoad(lens, bins[j]) + lens[x]
    decreases |bins| - k
  {
    if k == |bins| || (BinOk(lens, cap, bins[k]) && BinLoad(lens, bins[k]) + lens[x] <= cap) then k
    else FirstWithRoom(lens, cap, bins, x, k + 1)
  }

  /** The bins with `x` in bin `i`, or in a new one behind them. */
  function PutAt(bins: seq<seq<int>>, x: int, i: nat): seq<seq<int>>
    requires i <= |bins|
  {
    if i < |bins| then bins[i := bins[i] + [x]] else bins + [[x]]
  }

  lemma PutFits(lens: seq<nat>, cap: nat, bins: seq<seq<int>>, x: int, i: nat)
    requires BinsOk(lens, cap, bins) && 0 <= x < |lens| && lens[x] <= cap && i <= |bins|
    requires i < |bins| ==> BinLoad(lens, bins[i]) + lens[x] <= cap
    ensures BinsOk(lens, cap, PutAt(bins, x, i))
  {
    LoadOfOne(lens, x);
    if i < |bins| { BinLoadSnoc(lens, bins[i], x); }
  }

  lemma PutKeepsSettled(lens: seq<nat>, cap: nat, bins: seq<seq<int>>, x: int, i: nat)
    requires BinsOk(lens, cap, bins) && Settled(lens, cap, bins) && 0 <= x < |lens| && lens[x] <= cap
    requires i == FirstWithRoom(lens, cap, bins, x, 0)
    ensures BinsOk(lens, cap, PutAt(bins, x, i)) && Settled(lens, cap, PutAt(bins, x, i))
  {
    PutFits(lens, cap, bins, x, i);
    if i < |bins| { BinLoadSnoc(lens, bins[i], x); }
  }

  lemma PutContents(bins: seq<seq<int>>, x: int, i: nat)
    requires i <= |bins|
    ensures multiset(Flatten(PutAt(bins, x, i))) == multiset(Flatten(bins)) + multiset{x}
  {
    if i < |bins| {
      assert multiset(bins[i] + [x]) == multiset(bins[i]) + multiset{x};
      ExtendBin(bins, i, bins[i] + [x], multiset{x});
    } else {
      assert (bins + [[x]])[..|bins|] == bins;
    }
  }

  predicate AllFit(lens: seq<nat>, cap: nat, order: seq<int>, n: nat)
    requires n <= |order|
  {
    forall j :: 0 <= j < n ==> 0 <= order[j] < |lens| && lens[order[j]] <= cap
  }

  /** First-fit of the first `n` sequences, in the given order. */
  function FirstFitOf(lens: seq<nat>, cap: nat, order: seq<int>, n: nat): (bins: seq<seq<int>>)
    requires n <= |order| && AllFit(lens, cap, order, n)
    ensures BinsOk(lens, cap, bins)
  {
    if n == 0 then []
    else
      var before, x := FirstFitOf(lens, cap, order, n - 1), order[n - 1];
      var i := FirstWithRoom(lens, cap, before, x, 0);
      PutFits(lens, cap, before, x, i);
      PutAt(before, x, i)
  }

  /** The bins hold just the given sequences, none where an earlier bin has room. */
  ghost predicate Holds(lens: seq<nat>, cap: nat, bins: seq<seq<int>>, items: multiset<int>) {
    BinsOk(lens, cap, bins) && Settled(lens, cap, bins) && multiset(Flatten(bins)) == items
  }

  lemma PutHolds(lens: seq<nat>, cap: nat, bins: seq<seq<int>>, items: multiset<int>, x: int,
                 bins': seq<seq<int>>, items': multiset<int>)
    requires Holds(lens, cap, bins, items) && 0 <= x < |lens| && lens[x] <= cap
    requires bins' == PutAt(bins, x, FirstWithRoom(lens, cap, bins, x, 0)) && items' == items + multiset{x}
    ensures Holds(lens, cap, bins', items')
  {
    var i := FirstWithRoom(lens, cap, bins, x, 0);
    PutKeepsSettled(lens, cap, bins, x, i);
    PutContents(bins, x, i);
  }

  lemma FirstFitNext(lens: seq<nat>, cap: nat, order: seq<int>, n: nat, bins: seq<seq<int>>)
    requires n < |order| && AllFit(lens, cap, order, n + 1) && bins == FirstFitOf(lens, cap, order, n)
    ensures FirstFitOf(lens, cap, order, n + 1) == PutAt(bins, order[n], FirstWithRoom(lens, cap, bins, order[n], 0))
  {}

  /** First-fit packs all the sequences of its order, none where an earlier bin has room. */
  lemma {:induction false} FirstFitPacks(lens: seq<nat>, cap: nat, order: seq<int>, n: nat, bins: seq<seq<int>>)
    requires n <= |order| && AllFit(lens, cap, order, n) && bins == FirstFitOf(lens, cap, order, n)
    ensures Holds(lens, cap, bins, multiset(order[..n]))
  {
    if n == 0 {
      assert order[..0] == [];
      assert Flatten(bins) == [];
    } else {
      var before := FirstFitOf(lens, cap, order, n - 1);
      FirstFitPacks(lens, cap, order, n - 1, before);
      FirstFitNext(lens, cap, order, n - 1, before);
      PrefixSnoc(order, n - 1);
      PutHolds(lens, cap, before, multiset(order[..n - 1]), order[n - 1], bins, multiset(order[..n]));
    }
  }

  /** One sequence goes into the first bin with room, or into a new one. */
  method PlaceOne(lens: seq<nat>, cap: nat, bins: seq<seq<int>>, room: seq<nat>, x: int)
    returns (bins': seq<seq<int>>, room': seq<nat>)
    requires Room(lens, cap, bins, room) && 0 <= x < |lens| && lens[x] <= cap
    ensures Room(lens, cap, bins', room') && bins' == PutAt(bins, x, FirstWithRoom(lens, cap, bins, x, 0))
  {
    var i := FindBin(room, lens[x]);
    if i < |bins| {
      BinLoadSnoc(lens, bins[i], x);
      bins', room' := bins[i := bins[i] + [x]], room[i := room[i] - lens[x]];
    } else {
      LoadOfOne(lens, x);
      bins', room' := bins + [[x]], room + [cap - lens[x]];
    }
  }

  /** The loop of first-fit over the given sequences. */
  method PlaceInOrder(lens: seq<nat>, cap: nat, order: seq<int>) returns (fits: bool, bins: seq<seq<int>>)
    requires InRange(order, |lens|)
    ensures fits <==> AllFit(lens, cap, order, |order|)
    ensures fits ==> bins == FirstFitOf(lens, cap, order, |order|)
  {
    var room: seq<nat> := [];
    bins := [];
    for k := 0 to |order|
      invariant AllFit(lens, cap, order, k) && bins == FirstFitOf(lens, cap, order, k)
      invariant Room(lens, cap, bins, room)
    {
      if lens[order[k]] > cap {
        fits := false;
        return;
      }
      bins, room := PlaceOne(lens, cap, bins, room, order[k]);
    }
    fits := true;
  }

  lemma PrefixSnoc(order: seq<int>, k: nat)
    requires k < |order|
    ensures multiset(order[..k + 1]) == multiset(order[..k]) + multiset{order[k]}
  {
    assert order[..k] + [order[k]] == order[..k + 1];
  }

  /** First-fit over the sequences in any order: descending length or shuffled, as the
      subclass decides. */
  method FirstFit(lens: seq<nat>, cap: nat, order: seq<int>) returns (result: Packed)
    requires IsPermutation(order, |lens|)
    ensures result.TooLong? <==> SomeTooLong(lens, cap)
    ensures !result.TooLong? ==> result.Bins? && IsPacking(lens, cap, result.bins)
    ensures result.Bins? ==> IsFirstFit(lens, cap, order, result.bins)
  {
    PermutationRange(order, |lens|);
    var fits, bins := PlaceInOrder(lens, cap, order);
    if !fits {
      return TooLong;
    }
    NoneTooLong(lens, cap, order);
    FirstFitPacks(lens, cap, order, |order|, bins);
    assert order[..|order|] == order;
    result := Bins(bins);
  }

  ghost predicate IsFirstFit(lens: seq<nat>, cap: nat, order: seq<int>, bins: seq<seq<int>>) {
    AllFit(lens, cap, order, |order|) && bins == FirstFitOf(lens, cap, order, |order|)
  }

  lemma NoneTooLong(lens: seq<nat>, cap: nat, order: seq<int>)
    requires IsPermutation(order, |lens|) && InRange(order, |lens|)
    requires AllFit(lens, cap, order, |order|)
    ensures !SomeTooLong(lens, cap)
  {
    forall i | 0 <= i < |lens| ensures lens[i] <= cap {
      assert Iota(0, |lens|)[i] == i;
      assert i in multiset(order);
      assert i in order;
    }
  }

  // ---------------------------------------------------------------- first fit is within a factor of two

  lemma {:induction false} LoadAppend(lens: seq<nat>, x: seq<int>, y: seq<int>)
    requires InRange(x, |lens|) && InRange(y, |lens|)
    ensures InRange(x + y, |lens|) && BinLoad(lens, x + y) == BinLoad(lens, x) + BinLoad(lens, y)
  {
    if y == [] {
      assert x + y == x;
    } else {
      assert (x + y)[..|x + y| - 1] == x + y[..|y| - 1];
      LoadAppend(lens, x, y[..|y| - 1]);
    }
  }

  function Loads(lens: seq<nat>, cap: nat, bins: seq<seq<int>>): (r: seq<int>)
    requires BinsOk(lens, cap, bins)
    ensures |r| == |bins| && forall i :: 0 <= i < |r| ==> r[i] == BinLoad(lens, bins[i])
  {
    seq(|bins|, i requires 0 <= i < |bins| => BinLoad(lens, bins[i]))
  }

  lemma {:induction false} LoadOfAll(lens: seq<nat>, cap: nat, bins: seq<seq<int>>)
    requires BinsOk(lens, cap, bins)
    ensures InRange(Flatten(bins), |lens|)
    ensures BinLoad(lens, Flatten(bins)) == Sum(Loads(lens, cap, bins))
  {
    if bins != [] {
      var m := |bins| - 1;
      LoadOfAll(lens, cap, bins[..m]);
      assert Loads(lens, cap, bins)[..m] == Loads(lens, cap, bins[..m]);
      LoadAppend(lens, Flatten(bins[..m]), bins[m]);
    }
  }

  lemma LoadWithout(lens: seq<nat>, q: seq<int>, j: nat)
    requires InRange(q, |lens|) && j < |q|
    ensures BinLoad(lens, q) == BinLoad(lens, q[..j] + q[j + 1..]) + lens[q[j]]
    ensures multiset(q) == multiset(q[..j] + q[j + 1..]) + multiset{q[j]}
  {
    var x, y := q[..j], q[j + 1..];
    assert q == (x + [q[j]]) + y;
    BinLoadSnoc(lens, x, q[j]);
    LoadAppend(lens, x + [q[j]], y);
    LoadAppend(lens, x, y);
  }

  lemma {:induction false} LoadOfMultiset(lens: seq<nat>, p: seq<int>, q: seq<int>)
    requires InRange(p, |lens|) && InRange(q, |lens|) && multiset(p) == multiset(q)
    ensures BinLoad(lens, p) == BinLoad(lens, q)
    decreases |p|
  {
    if p == [] {
      assert |multiset(q)| == |q|;
    } else {
      var m := |p| - 1;
      assert p[m] in multiset(q);
      var j :| 0 <= j < |q| && q[j] == p[m];
      LoadWithout(lens, p, m);
      LoadWithout(lens, q, j);
      assert p[..m] + p[m + 1..] == p[..m];
      assert multiset(p[..m]) == multiset(p) - multiset{p[m]};
      assert multiset(q[..j] + q[j + 1..]) == multiset(q) - multiset{q[j]};
      LoadOfMultiset(lens, p[..m], q[..j] + q[j + 1..]);
    }
  }

  /** All packings of the same sequences have the same total load. */
  lemma SameTotal(lens: seq<nat>, cap: nat, x: seq<seq<int>>, y: seq<seq<int>>)
    requires IsPacking(lens, cap, x) && IsPacking(lens, cap, y)
    ensures Sum(Loads(lens, cap, x)) == Sum(Loads(lens, cap, y))
  {
    LoadOfAll(lens, cap, x);
    LoadOfAll(lens, cap, y);
    LoadOfMultiset(lens, Flatten(x), Flatten(y));
  }

  lemma {:induction false} SumAtMost(loads: seq<int>, cap: nat)
    requires forall i :: 0 <= i < |loads| ==> loads[i] <= cap
    ensures Sum(loads) <= |loads| * cap
  {
    if loads != [] {
      SumAtMost(loads[..|loads| - 1], cap);
      assert |loads| * cap == (|loads| - 1) * cap + cap;
    }
  }

  lemma {:induction false} PairsAreFull(loads: seq<int>, cap: nat, half: nat)
    requires forall i, j :: 0 <= i < j < |loads| ==> loads[i] + loads[j] > cap
    requires forall i :: 0 <= i < |loads| ==> loads[i] >= 0
    requires 2 * half <= |loads| <= 2 * half + 1
    ensures Sum(loads) >= half * (cap + 1)
  {
    if half > 0 {
      var m := |loads|;
      var front := loads[..m - 1];
      assert front[..m - 2] == loads[..m - 2];
      assert Sum(loads) == Sum(loads[..m - 2]) + loads[m - 2] + loads[m - 1];
      PairsAreFull(loads[..m - 2], cap, half - 1);
      assert half * (cap + 1) == (half - 1) * (cap + 1) + (cap + 1);
    } else if loads != [] {
      assert Sum(loads[..0]) == 0;
    }
  }

  /** Any two bins together hold more than one bin could. */
  ghost predicate Crowded(lens: seq<nat>, cap: nat, bins: seq<seq<int>>)
    requires BinsOk(lens, cap, bins)
  {
    forall i, j :: 0 <= i < j < |bins| ==> Loads(lens, cap, bins)[i] + Loads(lens, cap, bins)[j] > cap
  }

  lemma {:induction false} LoadAtLeast(lens: seq<nat>, bin: seq<int>, x: int)
    requires InRange(bin, |lens|) && x in bin
    ensures 0 <= x < |lens| && lens[x] <= BinLoad(lens, bin)
  {
    var m := |bin| - 1;
    if bin[m] != x { LoadAtLeast(lens, bin[..m], x); }
  }

  lemma SettledIsCrowded(lens: seq<nat>, cap: nat, bins: seq<seq<int>>)
    requires BinsOk(lens, cap, bins) && Settled(lens, cap, bins)
    ensures Crowded(lens, cap, bins)
  {
    forall i, j | 0 <= i < j < |bins| ensures BinLoad(lens, bins[i]) + BinLoad(lens, bins[j]) > cap {
      assert BinOk(lens, cap, bins[j]) && NoneFits(lens, bins[j], cap - BinLoad(lens, bins[i]));
      LoadAtLeast(lens, bins[j], bins[j][0]);
    }
  }

  /** Bins of which any two are crowded are fewer than twice the bins of any other packing. */
  lemma CrowdedWithinTwice(lens: seq<nat>, cap: nat, bins: seq<seq<int>>, other: seq<seq<int>>)
    requires IsPacking(lens, cap, bins) && Crowded(lens, cap, bins)
    requires IsPacking(lens, cap, other) && bins != []
    ensures |bins| < 2 * |other|
  {
    var loads, half := Loads(lens, cap, bins), |bins| / 2;
    SameTotal(lens, cap, bins, other);
    PairsAreFull(loads, cap, half);
    SumAtMost(Loads(lens, cap, other), cap);
    assert other != [] by {
      assert |multiset(Flatten(bins))| == |Flatten(bins)| && |multiset(Flatten(other))| == |Flatten(other)|;
      assert bins[|bins| - 1] != [];
    }
    Halves(half, |other|, cap);
  }

  /** First-fit, whatever the order, uses fewer than twice the bins of any other packing. */
  lemma FirstFitWithinTwice(lens: seq<nat>, cap: nat, order: seq<int>, bins: seq<seq<int>>, other: seq<seq<int>>)
    requires IsPermutation(order, |lens|) && IsFirstFit(lens, cap, order, bins)
    requires IsPacking(lens, cap, other) && bins != []
    ensures |bins| < 2 * |other|
  {
    FirstFitPacks(lens, cap, order, |order|, bins);
    assert order[..|order|] == order;
    SettledIsCrowded(lens, cap, bins);
    CrowdedWithinTwice(lens, cap, bins, other);
  }

  lemma Halves(half: nat, other: nat, cap: nat)
    requires half * (cap + 1) <= other * cap && 0 < other
    ensures half < other
  {
    assert half * (cap + 1) == other * cap + other + (half - other) * (cap + 1);
    assert half >= other ==> (half - other) * (cap + 1) >= 0;
  }

  // ---------------------------------------------------------------- concatenative

  lemma PackSnoc(lens: seq<nat>, cap: nat, bins: seq<seq<int>>, current: seq<int>, n: nat)
    requires BinsOk(lens, cap, bins) && Flatten(bins) + current == Iota(0, n)
    requires current != [] ==> BinOk(lens, cap, current)
    ensures BinsOk(lens, cap, WithCurrent(bins, current)) && Flatten(WithCurrent(bins, current)) == Iota(0, n)
  {
    assert (bins + [current])[..|bins|] == bins;
  }

  /** A bin is closed only when it is full: it has as many sequences as allowed, or the next
      one, which starts the next bin, is too long for it. */
  ghost predicate ClosedBefore(lens: seq<nat>, cap: nat, limit: int, bin: seq<int>, next: seq<int>) {
    && next != [] && InRange(bin, |lens|) && InRange(next, |lens|)
    && (BinLoad(lens, bin) + lens[next[0]] > cap || (limit != -1 && |bin| >= limit))
  }

  /** Every bin but the last was closed by the next one, and none has more sequences than
      allowed (a limit of 0 or below, other than -1, allows one). */
  ghost predicate ClosedInTurn(lens: seq<nat>, cap: nat, limit: int, bins: seq<seq<int>>) {
    && (forall b :: 0 < b < |bins| ==> ClosedBefore(lens, cap, limit, bins[b - 1], bins[b]))
    && (limit != -1 ==> forall b :: 0 <= b < |bins| ==> |bins[b]| <= Max(1, limit))
  }

  /** The bins with the one being filled. */
  function WithCurrent(bins: seq<seq<int>>, current: seq<int>): seq<seq<int>> {
    if current != [] then bins + [current] else bins
  }

  lemma StartsNext(lens: seq<nat>, cap: nat, limit: int, bins: seq<seq<int>>, current: seq<int>, i: nat)
    requires i < |lens| && InRange(current, |lens|) && (current == [] ==> bins == [])
    requires ClosedInTurn(lens, cap, limit, WithCurrent(bins, current))
    requires current != [] ==> BinLoad(lens, current) + lens[i] > cap || (limit != -1 && |current| >= limit)
    ensures ClosedInTurn(lens, cap, limit, WithCurrent(WithCurrent(bins, current), [i]))
  {
    var before, after := WithCurrent(bins, current), WithCurrent(WithCurrent(bins, current), [i]);
    forall b | 0 < b < |after| ensures ClosedBefore(lens, cap, limit, after[b - 1], after[b]) {
      if b < |before| { assert ClosedBefore(lens, cap, limit, before[b - 1], before[b]); }
    }
  }

  lemma JoinsCurrent(lens: seq<nat>, cap: nat, limit: int, bins: seq<seq<int>>, current: seq<int>, i: nat)
    requires i < |lens| && InRange(current, |lens|) && (current == [] ==> bins == [])
    requires ClosedInTurn(lens, cap, limit, WithCurrent(bins, current)) && (limit == -1 || |current| < limit)
    ensures ClosedInTurn(lens, cap, limit, WithCurrent(bins, current + [i]))
  {
    var before, after := WithCurrent(bins, current), WithCurrent(bins, current + [i]);
    forall b | 0 < b < |after| ensures ClosedBefore(lens, cap, limit, after[b - 1], after[b]) {
      assert ClosedBefore(lens, cap, limit, before[b - 1], before[b]);
    }
    forall b | 0 <= b < |after| && limit != -1 ensures |after[b]| <= Max(1, limit) {
      if b < |bins| { assert after[b] == before[b]; }
    }
  }

  /** Sequence `i` joins the current bin or starts the next one. */
  method Append(lens: seq<nat>, cap: nat, limit: int, bins: seq<seq<int>>, current: seq<int>, length: nat, i: nat)
    returns (bins': seq<seq<int>>, current': seq<int>, length': nat)
    requires i < |lens| && lens[i] <= cap && BinsOk(lens, cap, bins) && Flatten(bins) + current == Iota(0, i)
    requires InRange(current, |lens|) && length == BinLoad(lens, current) <= cap
    requires ClosedInTurn(lens, cap, limit, WithCurrent(bins, current)) && (current == [] ==> bins == [])
    ensures BinsOk(lens, cap, bins') && Flatten(bins') + current' == Iota(0, i + 1)
    ensures InRange(current', |lens|) && length' == BinLoad(lens, current') <= cap
    ensures ClosedInTurn(lens, cap, limit, WithCurrent(bins', current')) && current' != []
  {
    IotaSnoc(i);
    if length + lens[i] > cap || (limit != -1 && |current| >= limit) {
      PackSnoc(lens, cap, bins, current, i);
      LoadOfOne(lens, i);
      StartsNext(lens, cap, limit, bins, current, i);
      bins' := if current != [] then bins + [current] else bins;
      current', length' := [i], lens[i];
    } else {
      BinLoadSnoc(lens, current, i);
      JoinsCurrent(lens, cap, limit, bins, current, i);
      assert Flatten(bins) + (current + [i as int]) == (Flatten(bins) + current) + [i as int];
      bins', current', length' := bins, current + [i], length + lens[i];
    }
  }

  method ValidateLengths(lens: seq<nat>, cap: nat) returns (ok: bool)
    ensures ok <==> !SomeTooLong(lens, cap)
  {
    for i := 0 to |lens|
      invariant forall j :: 0 <= j < i ==> lens[j] <= cap
    {
      if lens[i] > cap {
        return false;
      }
    }
    ok := true;
  }

  /** Sequences in order, a new bin whenever the next one does not fit; `limit` is
      `max_sequences_per_bin`, -1 for none. */
  method Concatenative(lens: seq<nat>, cap: nat, limit: int) returns (result: Packed)
    ensures result.TooLong? <==> SomeTooLong(lens, cap)
    ensures !result.TooLong? ==> result.Bins? && IsPacking(lens, cap, result.bins)
    ensures result.Bins? ==> Flatten(result.bins) == Iota(0, |lens|) && ClosedInTurn(lens, cap, limit, result.bins)
  {
    var ok := ValidateLengths(lens, cap);
    if !ok {
      return TooLong;
    }
    var bins: seq<seq<int>>, current: seq<int>, length: nat := [], [], 0;
    for i := 0 to |lens|
      invariant BinsOk(lens, cap, bins) && Flatten(bins) + current == Iota(0, i)
      invariant InRange(current, |lens|) && length == BinLoad(lens, current) <= cap
      invariant ClosedInTurn(lens, cap, limit, WithCurrent(bins, current)) && (current == [] ==> bins == [])
    {
      bins, current, length := Append(lens, cap, limit, bins, current, length, i);
    }
    PackSnoc(lens, cap, bins, current, |lens|);
    if current != [] {
      bins := bins + [current];
    }
    result := Bins(bins);
  }

  // ---------------------------------------------------------------- adjusting the number of bins

  /** At least `min` and the next multiple of `multiple`. */
  function TargetCount(count: nat, min: nat, multiple: nat): (t: nat)
    requires 0 < multiple
    ensures t >= count && t >= min && t % multiple == 0
    ensures t < Max(count, min) + multiple
  {
    var t := Max(count, min);
    if t % multiple == 0 then t
    else
      NextMultiple(t, multiple);
      t + multiple - t % multiple
  }

  /** When the sequences can be dealt out evenly, there are always enough of them. */
  lemma TargetWithin(count: nat, n: nat, k: nat)
    requires count <= n && 0 < k <= n && n % k == 0
    ensures TargetCount(count, k, k) <= n
  {
    var t := TargetCount(count, k, k);
    assert t == k * (t / k) && n == k * (n / k);
    CloseMultiples(k, t / k, n / k);
    FewerTimes(k, t / k, n / k);
  }

  lemma FewerTimes(k: nat, a: int, b: int)
    requires a <= b
    ensures k * a <= k * b
  {
    assert k * b == k * a + k * (b - a);
  }

  lemma NextMultiple(t: nat, k: nat)
    requires 0 < k
    ensures (t + k - t % k) % k == 0
  {
    var q := t / k;
    assert t == k * q + t % k;
    assert t + k - t % k == k * (q + 1);
    ModOfMultiple(q + 1, k);
  }

  function Sizes(bins: seq<seq<int>>): (r: seq<int>)
    ensures |r| == |bins| && forall i :: 0 <= i < |r| ==> r[i] == |bins[i]|
  {
    seq(|bins|, i requires 0 <= i < |bins| => |bins[i]|)
  }

  /** Bins from which a sequence is taken, largest first. */
  function Donors(bins: seq<seq<int>>): (r: seq<int>)
    ensures |r| == |bins| && InRange(r, |bins|)
  {
    Reversed(SortedRange(Sizes(bins)))
  }

  lemma {:induction false} DonorsCover(bins: seq<seq<int>>, i: nat)
    requires i < |bins|
    ensures exists j :: 0 <= j < |bins| && Donors(bins)[j] == i
  {
    var sorted := SortedRange(Sizes(bins));
    SortedRangeIsStableSort(Sizes(bins));
    assert Iota(0, |bins|)[i] == i;
    assert i in multiset(sorted);
    var k :| 0 <= k < |sorted| && sorted[k] == i;
    assert Donors(bins)[|sorted| - 1 - k] == i;
  }

  /** State of the loop: `now` are the old bins less what was moved, plus the new bins. */
  ghost predicate Adjusting(lens: seq<nat>, cap: nat, bins: seq<seq<int>>, now: seq<seq<int>>, source: nat) {
    && |bins| <= |now| && BinsOk(lens, cap, now)
    && multiset(Flatten(now)) == multiset(Flatten(bins))
    && source <= |bins|
    && Fronts(bins, now) && Untouched(bins, now, source)
    && (forall j :: 0 <= j < source ==> |now[Donors(bins)[j]]| == 1)
    && (forall i :: |bins| <= i < |now| ==> |now[i]| == 1)
  }

  /** Every old bin keeps a front part. */
  ghost predicate Fronts(bins: seq<seq<int>>, now: seq<seq<int>>) {
    |bins| <= |now| && forall i :: 0 <= i < |bins| ==> now[i] <= bins[i]
  }

  ghost predicate Untouched(bins: seq<seq<int>>, now: seq<seq<int>>, source: nat) {
    |bins| <= |now| && forall j :: source < j < |bins| ==> now[Donors(bins)[j]] == bins[Donors(bins)[j]]
  }

  /** Bin `k` has more sequences than bin `i`, or as many and comes later. */
  predicate Fuller(bins: seq<seq<int>>, k: nat, i: nat)
    requires k < |bins| && i < |bins|
  {
    |bins[k]| > |bins[i]| || (|bins[k]| == |bins[i]| && k > i)
  }

  /** Every old bin keeps a front part, the new bins have one sequence each, and a bin gives
      only after all fuller ones are down to one. */
  ghost predicate TakenFrom(bins: seq<seq<int>>, now: seq<seq<int>>) {
    && Fronts(bins, now)
    && (forall i :: |bins| <= i < |now| ==> |now[i]| == 1)
    && (forall i, k :: 0 <= i < |bins| && 0 <= k < |bins| && now[i] != bins[i] && Fuller(bins, k, i) ==> |now[k]| == 1)
  }

  lemma AdjustedTakes(lens: seq<nat>, cap: nat, bins: seq<seq<int>>, now: seq<seq<int>>, source: nat)
    requires Adjusting(lens, cap, bins, now, source)
    ensures TakenFrom(bins, now)
  {
    forall i, k | 0 <= i < |bins| && 0 <= k < |bins| && now[i] != bins[i] && Fuller(bins, k, i)
      ensures |now[k]| == 1
    {
      DonorsCover(bins, i);
      DonorsCover(bins, k);
      var p: nat :| p < |bins| && Donors(bins)[p] == i;
      var q: nat :| q < |bins| && Donors(bins)[q] == k;
      if p < q { ReversedDescends(Sizes(bins), p, q); }
    }
  }

  lemma LoadOfPrefix(lens: seq<nat>, bin: seq<int>, m: nat)
    requires InRange(bin, |lens|) && m < |bin| && m == |bin| - 1
    ensures BinLoad(lens, bin[..m]) + BinLoad(lens, [bin[m]]) == BinLoad(lens, bin)
  {
    BinLoadSnoc(lens, [], bin[m]);
    assert [] + [bin[m]] == [bin[m]];
  }

  /** Splitting the last sequence off a bin into a bin of its own. */
  function SplitLast(now: seq<seq<int>>, d: int): (r: seq<seq<int>>)
    requires 0 <= d < |now| && now[d] != []
    ensures |r| == |now| + 1
  {
    now[d := now[d][..|now[d]| - 1]] + [[now[d][|now[d]| - 1]]]
  }

  lemma SplitKeepsAll(now: seq<seq<int>>, d: nat)
    requires d < |now| && now[d] != []
    ensures multiset(Flatten(SplitLast(now, d))) == multiset(Flatten(now))
  {
    var bin, m := now[d], |now[d]| - 1;
    var kept := now[d := bin[..m]];
    assert bin == bin[..m] + [bin[m]];
    assert kept[d := bin] == now;
    ExtendBin(kept, d, bin, multiset{bin[m]});
    assert (kept + [[bin[m]]])[..|kept|] == kept;
  }

  lemma SplitFits(lens: seq<nat>, cap: nat, now: seq<seq<int>>, d: nat)
    requires d < |now| && |now[d]| > 1 && BinsOk(lens, cap, now)
    ensures BinsOk(lens, cap, SplitLast(now, d))
  {
    assert BinOk(lens, cap, now[d]);
    LoadOfPrefix(lens, now[d], |now[d]| - 1);
  }

  lemma SplitKeepsFronts(bins: seq<seq<int>>, now: seq<seq<int>>, source: nat)
    requires Fronts(bins, now) && Untouched(bins, now, source) && source < |bins| && now[Donors(bins)[source]] != []
    ensures Fronts(bins, SplitLast(now, Donors(bins)[source]))
    ensures Untouched(bins, SplitLast(now, Donors(bins)[source]), source)
  {
    forall j | source < j < |bins| ensures Donors(bins)[j] != Donors(bins)[source] {
      ReversedDescends(Sizes(bins), source, j);
    }
  }

  lemma MoveOne(lens: seq<nat>, cap: nat, bins: seq<seq<int>>, now: seq<seq<int>>, source: nat)
    requires Adjusting(lens, cap, bins, now, source) && source < |bins| && |now[Donors(bins)[source]]| > 1
    ensures Adjusting(lens, cap, bins, SplitLast(now, Donors(bins)[source]), source)
  {
    var d := Donors(bins)[source];
    SplitKeepsAll(now, d);
    SplitFits(lens, cap, now, d);
    SplitKeepsFronts(bins, now, source);
  }

  lemma {:induction false} SingletonsLength(bins: seq<seq<int>>)
    requires AllOfLength(bins, 1)
    ensures |Flatten(bins)| == |bins|
  {
    FlattenLength(bins, 1);
  }

  /** The source bins cannot run out before enough bins exist. */
  lemma DonorsSuffice(lens: seq<nat>, cap: nat, bins: seq<seq<int>>, now: seq<seq<int>>)
    requires Adjusting(lens, cap, bins, now, |bins|)
    ensures |now| == |Flatten(bins)|
  {
    forall i | 0 <= i < |now| ensures |now[i]| == 1 {
      if i < |bins| {
        DonorsCover(bins, i);
        var j :| 0 <= j < |bins| && Donors(bins)[j] == i;
      }
    }
    SingletonsLength(now);
    assert |multiset(Flatten(now))| == |Flatten(now)| && |multiset(Flatten(bins))| == |Flatten(bins)|;
  }

  method NextDonor(ghost lens: seq<nat>, ghost cap: nat, bins: seq<seq<int>>, now: seq<seq<int>>, source: nat)
    returns (source': nat)
    requires Adjusting(lens, cap, bins, now, source)
    ensures Adjusting(lens, cap, bins, now, source')
    ensures source' < |bins| ==> |now[Donors(bins)[source']]| > 1
  {
    source' := source;
    while source' < |bins| && |now[Donors(bins)[source']]| <= 1
      invariant Adjusting(lens, cap, bins, now, source')
      decreases |bins| - source'
    {
      assert BinOk(lens, cap, now[Donors(bins)[source']]);
      source' := source' + 1;
    }
  }

  /** Moves single sequences into new bins until the count is right. The ValueError of the
      `while ... else` is never raised. */
  method AdjustBinCount(ghost lens: seq<nat>, ghost cap: nat, bins: seq<seq<int>>, min: nat, multiple: nat)
    returns (result: Packed)
    requires 0 < multiple && IsPacking(lens, cap, bins)
    ensures result.TooFew? <==> |lens| < TargetCount(|bins|, min, multiple)
    ensures !result.TooFew? ==> result.Bins? && IsPacking(lens, cap, result.bins)
    ensures result.Bins? ==> |result.bins| == TargetCount(|bins|, min, multiple) && TakenFrom(bins, result.bins)
  {
    var target := TargetCount(|bins|, min, multiple);
    PermutationRange(Flatten(bins), |lens|);
    BinsHoldOne(lens, cap, bins);
    if target == |bins| {
      return Bins(bins);
    }
    if |Flatten(bins)| < target {
      return TooFew;
    }
    var now, source := bins, 0;
    for k := |bins| to target
      invariant |now| == k && Adjusting(lens, cap, bins, now, source)
    {
      source := NextDonor(lens, cap, bins, now, source);
      if source == |bins| {
        DonorsSuffice(lens, cap, bins, now);
        assert false;
      }
      MoveOne(lens, cap, bins, now, source);
      var d := Donors(bins)[source];
      var moved := now[d][|now[d]| - 1];
      now := now[d := now[d][..|now[d]| - 1]] + [[moved]];
    }
    AdjustedTakes(lens, cap, bins, now, source);
    result := Bins(now);
  }

  lemma {:induction false} BinsHoldOne(lens: seq<nat>, cap: nat, bins: seq<seq<int>>)
    requires BinsOk(lens, cap, bins)
    ensures |bins| <= |Flatten(bins)|
  {
    if bins != [] {
      BinsHoldOne(lens, cap, bins[..|bins| - 1]);
      assert BinOk(lens, cap, bins[|bins| - 1]);
    }
  }
}
