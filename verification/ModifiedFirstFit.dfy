/** The modified first-fit-decreasing packer: five phases over large, medium, small and tiny
    sequences (`ModifiedFirstFitDecreasingPacker`, nemo_rl/data/packing/algorithms.py). */
module ModifiedFirstFit {
  import opened Lists
  import opened Sorting
  import opened Packing

  function SizesOf(lens: seq<nat>, items: seq<int>, sign: int): (r: seq<int>)
    requires InRange(items, |lens|)
    ensures |r| == |items|
  {
    seq(|items|, i requires 0 <= i < |items| => sign * lens[items[i]])
  }

  /** Stable sort by size: ascending for sign 1, descending for sign -1. */
  function SortedBySize(lens: seq<nat>, items: seq<int>, sign: int): (r: seq<int>)
    requires InRange(items, |lens|)
    ensures |r| == |items|
  {
    Select(items, SortedRange(SizesOf(lens, items, sign)))
  }

  lemma SortKeepsItems(lens: seq<nat>, items: seq<int>, sign: int)
    requires InRange(items, |lens|)
    ensures multiset(SortedBySize(lens, items, sign)) == multiset(items)
    ensures InRange(SortedBySize(lens, items, sign), |lens|)
  {
    var order := SortedRange(SizesOf(lens, items, sign));
    SortedRangeIsStableSort(SizesOf(lens, items, sign));
    SelectMultiset(items, order, Iota(0, |items|));
    assert Select(items, Iota(0, |items|)) == items;
  }

  /** By size: ascending for sign 1, descending for sign -1. */
  predicate BySize(lens: seq<nat>, items: seq<int>, sign: int) {
    InRange(items, |lens|) && forall i, j :: 0 <= i < j < |items| ==> sign * lens[items[i]] <= sign * lens[items[j]]
  }

  lemma SortedBySizeIsSorted(lens: seq<nat>, items: seq<int>, sign: int)
    requires InRange(items, |lens|)
    ensures BySize(lens, SortedBySize(lens, items, sign), sign)
  {
    var keys := SizesOf(lens, items, sign);
    SortedRangeIsStableSort(keys);
    SortKeepsItems(lens, items, sign);
    var order, sorted := SortedRange(keys), SortedBySize(lens, items, sign);
    forall i, j | 0 <= i < j < |items| ensures sign * lens[sorted[i]] <= sign * lens[sorted[j]] {
      assert Select(keys, order)[i] <= Select(keys, order)[j];
    }
  }

  datatype Classes = Classes(large: seq<int>, medium: seq<int>, small: seq<int>, tiny: seq<int>)

  ghost function Everything(c: Classes): multiset<int> {
    multiset(c.large) + multiset(c.medium) + multiset(c.small) + multiset(c.tiny)
  }

  predicate AllInRange(c: Classes, n: int) {
    InRange(c.large, n) && InRange(c.medium, n) && InRange(c.small, n) && InRange(c.tiny, n)
  }

  /** (C/2, C], (C/3, C/2], (C/6, C/3], (0, C/6] */
  function Classified(c: Classes, i: int, size: nat, cap: nat): Classes {
    if 2 * size > cap then c.(large := c.large + [i])
    else if 3 * size > cap then c.(medium := c.medium + [i])
    else if 6 * size > cap then c.(small := c.small + [i])
    else c.(tiny := c.tiny + [i])
  }

  /** Every item is in the class of its size. */
  ghost predicate RightClasses(lens: seq<nat>, cap: nat, c: Classes)
    requires AllInRange(c, |lens|)
  {
    && (forall x :: x in c.large ==> cap < 2 * lens[x])
    && (forall x :: x in c.medium ==> 2 * lens[x] <= cap < 3 * lens[x])
    && (forall x :: x in c.small ==> 3 * lens[x] <= cap < 6 * lens[x])
    && (forall x :: x in c.tiny ==> 6 * lens[x] <= cap)
  }

  lemma ClassifiedRight(lens: seq<nat>, cap: nat, c: Classes, i: nat)
    requires i < |lens| && AllInRange(c, |lens|) && RightClasses(lens, cap, c)
    ensures AllInRange(Classified(c, i, lens[i], cap), |lens|)
    ensures RightClasses(lens, cap, Classified(c, i, lens[i], cap))
  {}

  lemma ClassifiedAdds(c: Classes, i: int, size: nat, cap: nat)
    ensures Everything(Classified(c, i, size, cap)) == Everything(c) + multiset{i}
  {
    if 2 * size > cap {
      SnocMultiset(c.large, i);
    } else if 3 * size > cap {
      SnocMultiset(c.medium, i);
    } else if 6 * size > cap {
      SnocMultiset(c.small, i);
    } else {
      SnocMultiset(c.tiny, i);
    }
  }

  lemma SnocMultiset(s: seq<int>, i: int)
    ensures multiset(s + [i]) == multiset(s) + multiset{i}
  {}

  method Classify(lens: seq<nat>, cap: nat) returns (c: Classes)
    ensures AllInRange(c, |lens|) && Everything(c) == multiset(Iota(0, |lens|)) && RightClasses(lens, cap, c)
  {
    c := Classes([], [], [], []);
    assert Iota(0, 0) == [];
    for i := 0 to |lens|
      invariant AllInRange(c, |lens|) && Everything(c) == multiset(Iota(0, i)) && RightClasses(lens, cap, c)
    {
      IotaSnoc(i);
      ClassifiedRight(lens, cap, c, i);
      ClassifiedAdds(c, i, lens[i], cap);
      c := Classified(c, i, lens[i], cap);
    }
  }

  /** Nothing is lost: what the bins and the pool hold together. */
  ghost function Held(bins: seq<seq<int>>, pool: seq<int>): multiset<int> { multiset(Flatten(bins)) + multiset(pool) }

  /** Moves one item from the pool into a bin with room for it. */
  lemma MoveIn(lens: seq<nat>, cap: nat, bins: seq<seq<int>>, pool: seq<int>, b: nat, i: nat)
    requires BinsOk(lens, cap, bins) && InRange(pool, |lens|) && b < |bins| && i < |pool|
    requires InRange(bins[b], |lens|) && BinLoad(lens, bins[b]) + lens[pool[i]] <= cap
    ensures BinsOk(lens, cap, bins[b := bins[b] + [pool[i]]]) && InRange(Dropped(pool, i), |lens|)
    ensures Held(bins[b := bins[b] + [pool[i]]], Dropped(pool, i)) == Held(bins, pool)
  {
    GrowBin(lens, cap, bins, b, pool[i]);
    MoveKeeps(bins, pool, b, i);
  }

  lemma GrowBin(lens: seq<nat>, cap: nat, bins: seq<seq<int>>, b: nat, x: int)
    requires BinsOk(lens, cap, bins) && b < |bins| && 0 <= x < |lens|
    requires InRange(bins[b], |lens|) && BinLoad(lens, bins[b]) + lens[x] <= cap
    ensures BinsOk(lens, cap, bins[b := bins[b] + [x]])
  {
    BinLoadSnoc(lens, bins[b], x);
  }

  lemma MoveKeeps(bins: seq<seq<int>>, pool: seq<int>, b: nat, i: nat)
    requires b < |bins| && i < |pool|
    ensures Held(bins[b := bins[b] + [pool[i]]], Dropped(pool, i)) == Held(bins, pool)
  {
    SnocMultiset(bins[b], pool[i]);
    ExtendBin(bins, b, bins[b] + [pool[i]], multiset{pool[i]});
    DroppedMultiset(pool, i);
  }

  /** First item of the pool that fits, or the length of the pool. */
  method FirstThatFits(lens: seq<nat>, pool: seq<int>, room: nat) returns (i: nat)
    requires InRange(pool, |lens|)
    ensures i <= |pool| && (i < |pool| ==> lens[pool[i]] <= room)
    ensures forall k :: 0 <= k < i ==> lens[pool[k]] > room
  {
    i := 0;
    while i < |pool| && lens[pool[i]] > room
      invariant i <= |pool| && forall k :: 0 <= k < i ==> lens[pool[k]] > room
    {
      i := i + 1;
    }
  }

  /** Last item of the pool that fits; there is one. */
  method LastThatFits(lens: seq<nat>, pool: seq<int>, room: nat) returns (j: nat)
    requires InRange(pool, |lens|) && exists k :: 0 <= k < |pool| && lens[pool[k]] <= room
    ensures j < |pool| && lens[pool[j]] <= room
    ensures forall k :: j < k < |pool| ==> lens[pool[k]] > room
  {
    var n: nat := |pool|;
    while lens[pool[n - 1]] > room
      invariant 0 < n <= |pool| && exists k :: 0 <= k < n && lens[pool[k]] <= room
      invariant forall k :: n <= k < |pool| ==> lens[pool[k]] > room
      decreases n
    {
      n := n - 1;
    }
    j := n - 1;
  }

  method RoomIn(lens: seq<nat>, cap: nat, bins: seq<seq<int>>, b: nat) returns (room: nat)
    requires BinsOk(lens, cap, bins) && b < |bins|
    ensures InRange(bins[b], |lens|) && BinLoad(lens, bins[b]) + room == cap
  {
    assert BinOk(lens, cap, bins[b]);
    room := cap - BinLoad(lens, bins[b]);
  }

  /** No bin loses anything. */
  ghost predicate Grows(bins: seq<seq<int>>, bins': seq<seq<int>>) {
    |bins'| == |bins| && forall b :: 0 <= b < |bins| ==> bins[b] <= bins'[b]
  }

  /** Every bin starts with a large item. */
  ghost predicate LargeFirst(lens: seq<nat>, cap: nat, bins: seq<seq<int>>) {
    forall b :: 0 <= b < |bins| ==> StartsLarge(lens, cap, bins[b])
  }

  predicate StartsLarge(lens: seq<nat>, cap: nat, bin: seq<int>) {
    bin != [] && 0 <= bin[0] < |lens| && cap < 2 * lens[bin[0]]
  }

  lemma GrownStartLarge(lens: seq<nat>, cap: nat, bins: seq<seq<int>>, bins': seq<seq<int>>)
    requires LargeFirst(lens, cap, bins) && Grows(bins, bins')
    ensures LargeFirst(lens, cap, bins')
  {
    forall b | 0 <= b < |bins'| ensures StartsLarge(lens, cap, bins'[b]) {
      assert StartsLarge(lens, cap, bins[b]) && bins[b] <= bins'[b];
    }
  }

  /** The bin got the largest item that fits, of those left and the one it got; or it got
      nothing, and nothing fits. */
  ghost predicate GotLargest(lens: seq<nat>, cap: nat, bin: seq<int>, bin': seq<int>, left: seq<int>) {
    && BinOk(lens, cap, bin) && BinOk(lens, cap, bin') && InRange(left, |lens|)
    && if bin' == bin then NoneFits(lens, left, cap - BinLoad(lens, bin))
       else
         && |bin'| == |bin| + 1 && bin <= bin'
         && forall x :: x in left && BinLoad(lens, bin) + lens[x] <= cap ==> lens[x] <= lens[bin'[|bin|]]
  }

  lemma FewerLeft(lens: seq<nat>, cap: nat, bin: seq<int>, bin': seq<int>, left: seq<int>, k: nat)
    requires GotLargest(lens, cap, bin, bin', left) && k < |left|
    ensures GotLargest(lens, cap, bin, bin', Dropped(left, k))
  {
    forall x | x in Dropped(left, k) ensures x in left {}
  }

  lemma DroppedBySize(lens: seq<nat>, items: seq<int>, sign: int, k: nat)
    requires BySize(lens, items, sign) && k < |items|
    ensures BySize(lens, Dropped(items, k), sign)
  {}

  lemma OwnBin(lens: seq<nat>, cap: nat, bins: seq<seq<int>>, x: int)
    requires BinsOk(lens, cap, bins) && 0 <= x < |lens| && lens[x] <= cap
    ensures BinsOk(lens, cap, bins + [[x]])
    ensures multiset(Flatten(bins + [[x]])) == multiset(Flatten(bins)) + multiset{x}
  {
    LoadOfOne(lens, x);
    assert (bins + [[x]])[..|bins|] == bins;
  }

  /** A bin for each item. */
  ghost predicate Singles(bins: seq<seq<int>>, items: seq<int>) {
    |bins| == |items| && forall b :: 0 <= b < |bins| ==> bins[b] == [items[b]]
  }

  ghost predicate Started(lens: seq<nat>, cap: nat, bins: seq<seq<int>>, items: seq<int>) {
    BinsOk(lens, cap, bins) && multiset(Flatten(bins)) == multiset(items) && Singles(bins, items)
  }

  lemma StartOne(lens: seq<nat>, cap: nat, bins: seq<seq<int>>, done: seq<int>, x: int)
    requires Started(lens, cap, bins, done) && 0 <= x < |lens| && lens[x] <= cap
    ensures Started(lens, cap, bins + [[x]], done + [x])
  {
    OwnBin(lens, cap, bins, x);
    SnocMultiset(done, x);
    forall b | 0 <= b < |bins| + 1 ensures (bins + [[x]])[b] == [(done + [x])[b]] {}
  }

  /** Phase 1: a bin for every large item. */
  method StartBins(lens: seq<nat>, cap: nat, large: seq<int>) returns (bins: seq<seq<int>>)
    requires InRange(large, |lens|) && forall i :: 0 <= i < |large| ==> lens[large[i]] <= cap
    ensures Started(lens, cap, bins, large)
  {
    bins := [];
    ghost var done: seq<int> := [];
    for i := 0 to |large|
      invariant done == large[..i] && Started(lens, cap, bins, done)
    {
      StartOne(lens, cap, bins, done, large[i]);
      done := done + [large[i]];
      bins := bins + [[large[i]]];
    }
    assert done == large;
  }

  /** Phase 2, one bin: the first medium item that fits. */
  method AddOneMedium(lens: seq<nat>, cap: nat, bins: seq<seq<int>>, medium: seq<int>, b: nat)
    returns (bins': seq<seq<int>>, medium': seq<int>)
    requires BinsOk(lens, cap, bins) && BySize(lens, medium, -1) && b < |bins|
    ensures |bins'| == |bins| && BinsOk(lens, cap, bins') && BySize(lens, medium', -1)
    ensures Held(bins', medium') == Held(bins, medium)
    ensures forall k :: 0 <= k < |bins| && k != b ==> bins'[k] == bins[k]
    ensures GotLargest(lens, cap, bins[b], bins'[b], medium')
    ensures medium' == medium || exists i: nat :: i < |medium| && medium' == Dropped(medium, i)
  {
    bins', medium' := bins, medium;
    var room := RoomIn(lens, cap, bins, b);
    var i := FirstThatFits(lens, medium, room);
    if i < |medium| {
      MoveIn(lens, cap, bins, medium, b, i);
      DroppedBySize(lens, medium, -1, i);
      TookLargest(lens, medium, room, i);
      bins', medium' := bins[b := bins[b] + [medium[i]]], Dropped(medium, i);
    }
  }

  lemma LargerFirst(lens: seq<nat>, items: seq<int>, i: nat, j: nat)
    requires BySize(lens, items, -1) && i < j < |items|
    ensures lens[items[j]] <= lens[items[i]]
  {}

  lemma TookLargest(lens: seq<nat>, items: seq<int>, room: nat, i: nat)
    requires BySize(lens, items, -1) && i < |items| && forall k :: 0 <= k < i ==> lens[items[k]] > room
    ensures forall x :: x in Dropped(items, i) && lens[x] <= room ==> lens[x] <= lens[items[i]]
  {
    forall x | x in Dropped(items, i) && lens[x] <= room ensures lens[x] <= lens[items[i]] {
      var k :| 0 <= k < |Dropped(items, i)| && Dropped(items, i)[k] == x;
      if k >= i { LargerFirst(lens, items, i, k + 1); }
    }
  }

  /** Phase 2: one medium item into each bin, forwards, the largest that fits. */
  method AddMedium(lens: seq<nat>, cap: nat, bins: seq<seq<int>>, medium: seq<int>)
    returns (bins': seq<seq<int>>, medium': seq<int>)
    requires BinsOk(lens, cap, bins) && BySize(lens, medium, -1)
    ensures BinsOk(lens, cap, bins') && InRange(medium', |lens|) && Held(bins', medium') == Held(bins, medium)
    ensures |bins'| == |bins| && forall b :: 0 <= b < |bins| ==> GotLargest(lens, cap, bins[b], bins'[b], medium')
  {
    bins', medium' := bins, medium;
    for b := 0 to |bins|
      invariant |bins'| == |bins| && BinsOk(lens, cap, bins') && BySize(lens, medium', -1)
      invariant Held(bins', medium') == Held(bins, medium)
      invariant forall k :: b <= k < |bins| ==> bins'[k] == bins[k]
      invariant forall k :: 0 <= k < b ==> GotLargest(lens, cap, bins[k], bins'[k], medium')
    {
      ghost var was := medium';
      bins', medium' := AddOneMedium(lens, cap, bins', medium', b);
      forall k | 0 <= k < b ensures GotLargest(lens, cap, bins[k], bins'[k], medium') {
        if medium' != was {
          var i: nat :| i < |was| && medium' == Dropped(was, i);
          FewerLeft(lens, cap, bins[k], bins'[k], was, i);
        }
      }
    }
  }

  method HasMedium(lens: seq<nat>, cap: nat, bin: seq<int>) returns (yes: bool)
    requires InRange(bin, |lens|)
    ensures yes <==> exists i :: 0 <= i < |bin| && IsMedium(cap, lens[bin[i]])
  {
    yes := false;
    for i := 0 to |bin|
      invariant yes <==> exists k :: 0 <= k < i && IsMedium(cap, lens[bin[k]])
    {
      if IsMedium(cap, lens[bin[i]]) {
        yes := true;
      }
    }
  }

  predicate IsMedium(cap: nat, size: nat) { 2 * size <= cap < 3 * size }

  /** A bin is passed over in phase 3: it holds a medium item, or the two smallest small ones
      do not both fit. */
  ghost predicate PassedOver(lens: seq<nat>, cap: nat, bin: seq<int>, small: seq<int>)
    requires InRange(bin, |lens|) && InRange(small, |lens|)
  {
    || (exists i :: 0 <= i < |bin| && IsMedium(cap, lens[bin[i]]))
    || |small| < 2 || BinLoad(lens, bin) + lens[small[0]] + lens[small[1]] > cap
  }

  /** Small item `j` is the last that fits together with the first. */
  ghost predicate LastPartner(lens: seq<nat>, cap: nat, bin: seq<int>, small: seq<int>, j: nat)
    requires InRange(bin, |lens|) && InRange(small, |lens|)
  {
    && 0 < j < |small| && BinLoad(lens, bin) + lens[small[0]] + lens[small[j]] <= cap
    && forall k :: j < k < |small| ==> BinLoad(lens, bin) + lens[small[0]] + lens[small[k]] > cap
  }

  /** Phase 3, one bin: two small items, the smallest and the largest that fits with it. Once
      the first has been taken out of the list a second one always fits, so it is never
      dropped. */
  method AddPair(lens: seq<nat>, cap: nat, bins: seq<seq<int>>, small: seq<int>, b: nat)
    returns (bins': seq<seq<int>>, small': seq<int>)
    requires BinsOk(lens, cap, bins) && InRange(small, |lens|) && b < |bins|
    ensures |bins'| == |bins| && BinsOk(lens, cap, bins') && InRange(small', |lens|)
    ensures Held(bins', small') == Held(bins, small)
    ensures BinOk(lens, cap, bins[b])
    ensures PassedOver(lens, cap, bins[b], small) ==> bins' == bins && small' == small
    ensures !PassedOver(lens, cap, bins[b], small) ==>
              exists j: nat :: LastPartner(lens, cap, bins[b], small, j)
                            && bins' == bins[b := bins[b] + [small[0], small[j]]]
                            && small' == Dropped(Dropped(small, 0), j - 1)
  {
    bins', small' := bins, small;
    var room := RoomIn(lens, cap, bins, b);
    var medium := HasMedium(lens, cap, bins[b]);
    if medium || |small| < 2 || lens[small[0]] + lens[small[1]] > room {
      return;
    }
    ghost var partner;
    bins', small', partner := TakePair(lens, cap, bins, small, b, room);
  }

  method TakePair(lens: seq<nat>, cap: nat, bins: seq<seq<int>>, small: seq<int>, b: nat, room: nat)
    returns (bins': seq<seq<int>>, small': seq<int>, ghost partner: nat)
    requires BinsOk(lens, cap, bins) && InRange(small, |lens|) && b < |bins| && BinOk(lens, cap, bins[b])
    requires BinLoad(lens, bins[b]) + room == cap && 2 <= |small| && lens[small[0]] + lens[small[1]] <= room
    ensures |bins'| == |bins| && BinsOk(lens, cap, bins') && InRange(small', |lens|)
    ensures Held(bins', small') == Held(bins, small)
    ensures LastPartner(lens, cap, bins[b], small, partner)
    ensures bins' == bins[b := bins[b] + [small[0], small[partner]]]
    ensures small' == Dropped(Dropped(small, 0), partner - 1)
  {
    MoveIn(lens, cap, bins, small, b, 0);
    BinLoadSnoc(lens, bins[b], small[0]);
    ghost var start := bins[b];
    bins', small' := bins[b := bins[b] + [small[0]]], Dropped(small, 0);
    assert small'[0] == small[1];
    var j := LastThatFits(lens, small', room - lens[small[0]]);
    partner := j + 1;
    PartnerFound(lens, cap, start, small, room, j);
    assert bins'[b] + [small'[j]] == start + [small[0], small[partner]];
    MoveIn(lens, cap, bins', small', b, j);
    bins', small' := bins'[b := bins'[b] + [small'[j]]], Dropped(small', j);
  }

  lemma PartnerFound(lens: seq<nat>, cap: nat, bin: seq<int>, small: seq<int>, room: nat, j: nat)
    requires InRange(bin, |lens|) && InRange(small, |lens|) && BinLoad(lens, bin) + room == cap && j + 1 < |small|
    requires lens[small[0]] + lens[small[j + 1]] <= room
    requires forall k :: j < k < |Dropped(small, 0)| ==> lens[small[0]] + lens[Dropped(small, 0)[k]] > room
    ensures LastPartner(lens, cap, bin, small, j + 1)
  {
    forall k | j + 1 < k < |small| ensures lens[small[0]] + lens[small[k]] > room {
      assert Dropped(small, 0)[k - 1] == small[k];
    }
  }

  method AddPairs(lens: seq<nat>, cap: nat, bins: seq<seq<int>>, small: seq<int>)
    returns (bins': seq<seq<int>>, small': seq<int>)
    requires BinsOk(lens, cap, bins) && InRange(small, |lens|)
    ensures BinsOk(lens, cap, bins') && InRange(small', |lens|) && Held(bins', small') == Held(bins, small)
    ensures Grows(bins, bins')
  {
    bins', small' := bins, small;
    for b := |bins| downto 0
      invariant |bins'| == |bins| && BinsOk(lens, cap, bins') && InRange(small', |lens|)
      invariant Held(bins', small') == Held(bins, small) && Grows(bins, bins')
    {
      bins', small' := AddPair(lens, cap, bins', small', b);
    }
  }

  /** The bin is within capacity, and none of the items left fits into it. */
  ghost predicate FullFor(lens: seq<nat>, cap: nat, bin: seq<int>, left: seq<int>) {
    BinOk(lens, cap, bin) && NoneFits(lens, left, cap - BinLoad(lens, bin))
  }

  lemma StillFull(lens: seq<nat>, cap: nat, bin: seq<int>, left: seq<int>, left': seq<int>)
    requires FullFor(lens, cap, bin, left) && forall x :: x in left' ==> x in left
    ensures FullFor(lens, cap, bin, left')
  {
    forall k | 0 <= k < |left'| ensures 0 <= left'[k] < |lens| && cap - BinLoad(lens, bin) < lens[left'[k]] {
      assert left'[k] in left';
    }
  }

  /** Whatever the bin got after `start` was the largest left that fitted at that point. */
  ghost predicate LargestInTurn(lens: seq<nat>, cap: nat, start: nat, bin: seq<int>, left: seq<int>)
    requires InRange(bin, |lens|) && InRange(left, |lens|)
  {
    forall n, x :: start <= n < |bin| && x in left && lens[x] > lens[bin[n]] ==> BinLoad(lens, bin[..n]) + lens[x] > cap
  }

  lemma TakesLargest(lens: seq<nat>, cap: nat, start: nat, bin: seq<int>, left: seq<int>, room: nat, i: nat)
    requires InRange(bin, |lens|) && BySize(lens, left, -1) && i < |left| && start <= |bin|
    requires LargestInTurn(lens, cap, start, bin, left) && BinLoad(lens, bin) + room == cap
    requires forall k :: 0 <= k < i ==> lens[left[k]] > room
    ensures InRange(bin + [left[i]], |lens|) && InRange(Dropped(left, i), |lens|)
    ensures LargestInTurn(lens, cap, start, bin + [left[i]], Dropped(left, i))
  {
    var bin' := bin + [left[i]];
    TookLargest(lens, left, room, i);
    forall n, x | start <= n < |bin'| && x in Dropped(left, i) && lens[x] > lens[bin'[n]]
      ensures BinLoad(lens, bin'[..n]) + lens[x] > cap
    {
      assert x in left;
      if n < |bin| {
        assert bin'[..n] == bin[..n] && bin'[n] == bin[n];
      } else {
        assert bin'[..n] == bin;
      }
    }
  }

  /** Phase 4, one bin: the largest remaining item that fits, as long as there is one. */
  method FillBin(lens: seq<nat>, cap: nat, bins: seq<seq<int>>, left: seq<int>, b: nat)
    returns (bins': seq<seq<int>>, left': seq<int>)
    requires BinsOk(lens, cap, bins) && BySize(lens, left, -1) && b < |bins|
    ensures |bins'| == |bins| && BinsOk(lens, cap, bins') && BySize(lens, left', -1)
    ensures Held(bins', left') == Held(bins, left) && forall x :: x in left' ==> x in left
    ensures bins' == bins[b := bins'[b]] && bins[b] <= bins'[b]
    ensures FullFor(lens, cap, bins'[b], left') && LargestInTurn(lens, cap, |bins[b]|, bins'[b], left')
  {
    bins', left' := bins, left;
    var full := false;
    assert BinOk(lens, cap, bins[b]);
    while !full
      invariant |bins'| == |bins| && BinsOk(lens, cap, bins') && BySize(lens, left', -1)
      invariant Held(bins', left') == Held(bins, left) && forall x :: x in left' ==> x in left
      invariant bins' == bins[b := bins'[b]] && bins[b] <= bins'[b]
      invariant BinOk(lens, cap, bins'[b]) && LargestInTurn(lens, cap, |bins[b]|, bins'[b], left')
      invariant full ==> FullFor(lens, cap, bins'[b], left')
      decreases |left'|, !full
    {
      full, bins', left' := FillOnce(lens, cap, bins', left', b, |bins[b]|);
    }
  }

  /** Stops when nothing is left, the smallest item does not fit, or none does. */
  method FillOnce(lens: seq<nat>, cap: nat, bins: seq<seq<int>>, left: seq<int>, b: nat, ghost start: nat)
    returns (full: bool, bins': seq<seq<int>>, left': seq<int>)
    requires BinsOk(lens, cap, bins) && BySize(lens, left, -1) && b < |bins|
    requires BinOk(lens, cap, bins[b]) && start <= |bins[b]| && LargestInTurn(lens, cap, start, bins[b], left)
    ensures |bins'| == |bins| && BinsOk(lens, cap, bins') && BySize(lens, left', -1)
    ensures Held(bins', left') == Held(bins, left) && forall x :: x in left' ==> x in left
    ensures bins' == bins[b := bins'[b]] && bins[b] <= bins'[b]
    ensures BinOk(lens, cap, bins'[b]) && LargestInTurn(lens, cap, start, bins'[b], left')
    ensures if full then bins' == bins && left' == left && FullFor(lens, cap, bins[b], left) else |left'| < |left|
  {
    full, bins', left' := true, bins, left;
    if left == [] {
      return;
    }
    var room := RoomIn(lens, cap, bins, b);
    if room < lens[left[|left| - 1]] {
      SmallestDoesNotFit(lens, left, room);
      return;
    }
    var i := FirstThatFits(lens, left, room);
    if i < |left| {
      MoveIn(lens, cap, bins, left, b, i);
      DroppedBySize(lens, left, -1, i);
      TakesLargest(lens, cap, start, bins[b], left, room, i);
      full, bins', left' := false, bins[b := bins[b] + [left[i]]], Dropped(left, i);
      assert BinOk(lens, cap, bins'[b]);
    }
  }

  lemma SmallestDoesNotFit(lens: seq<nat>, left: seq<int>, room: nat)
    requires BySize(lens, left, -1) && left != [] && room < lens[left[|left| - 1]]
    ensures NoneFits(lens, left, room)
  {
    forall i | 0 <= i < |left| ensures room < lens[left[i]] {
      if i < |left| - 1 { LargerFirst(lens, left, i, |left| - 1); }
    }
  }

  method FillBins(lens: seq<nat>, cap: nat, bins: seq<seq<int>>, left: seq<int>)
    returns (bins': seq<seq<int>>, left': seq<int>)
    requires BinsOk(lens, cap, bins) && BySize(lens, left, -1)
    ensures BinsOk(lens, cap, bins') && InRange(left', |lens|) && Held(bins', left') == Held(bins, left)
    ensures Grows(bins, bins') && forall b :: 0 <= b < |bins'| ==> FullFor(lens, cap, bins'[b], left')
  {
    bins', left' := bins, left;
    for b := 0 to |bins|
      invariant |bins'| == |bins| && BinsOk(lens, cap, bins') && BySize(lens, left', -1)
      invariant Held(bins', left') == Held(bins, left) && Grows(bins, bins')
      invariant forall k :: 0 <= k < b ==> FullFor(lens, cap, bins'[k], left')
    {
      ghost var was := left';
      bins', left' := FillBin(lens, cap, bins', left', b);
      forall k | 0 <= k < b ensures FullFor(lens, cap, bins'[k], left') {
        StillFull(lens, cap, bins'[k], was, left');
      }
    }
  }

  /** Phase 5: first-fit-decreasing into bins of their own. */
  method PackLeftovers(lens: seq<nat>, cap: nat, bins: seq<seq<int>>, left: seq<int>) returns (all: seq<seq<int>>)
    requires BinsOk(lens, cap, bins) && InRange(left, |lens|) && !SomeTooLong(lens, cap) && LargeFirst(lens, cap, bins)
    requires forall b :: 0 <= b < |bins| ==> FullFor(lens, cap, bins[b], left)
    ensures BinsOk(lens, cap, all) && multiset(Flatten(all)) == Held(bins, left) && Crowded(lens, cap, all)
    ensures bins <= all && IsFirstFit(lens, cap, SortedBySize(lens, left, -1), all[|bins|..])
  {
    SortKeepsItems(lens, left, -1);
    var fits, more := PlaceInOrder(lens, cap, SortedBySize(lens, left, -1));
    FirstFitPacks(lens, cap, SortedBySize(lens, left, -1), |left|, more);
    assert SortedBySize(lens, left, -1)[..|left|] == SortedBySize(lens, left, -1);
    all := bins + more;
    FlattenAppend(bins, more);
    SettledIsCrowded(lens, cap, more);
    AllCrowded(lens, cap, bins, more, left);
  }

  lemma BinHasMoreThanHalf(lens: seq<nat>, cap: nat, bin: seq<int>)
    requires BinOk(lens, cap, bin) && StartsLarge(lens, cap, bin)
    ensures cap < 2 * BinLoad(lens, bin)
  {
    LoadAtLeast(lens, bin, bin[0]);
  }

  lemma {:induction false} InFlatten(bins: seq<seq<int>>, b: nat, x: int)
    requires b < |bins| && x in bins[b]
    ensures x in Flatten(bins)
  {
    var m := |bins| - 1;
    if b < m { InFlatten(bins[..m], b, x); }
  }

  /** A bin of leftovers starts with an item that fits into none of the bins before. */
  lemma LeftoverCrowds(lens: seq<nat>, cap: nat, bin: seq<int>, more: seq<seq<int>>, left: seq<int>, j: nat)
    requires FullFor(lens, cap, bin, left) && BinsOk(lens, cap, more) && j < |more|
    requires multiset(Flatten(more)) == multiset(left)
    ensures BinOk(lens, cap, more[j]) && BinLoad(lens, bin) + BinLoad(lens, more[j]) > cap
  {
    assert BinOk(lens, cap, more[j]);
    var x := more[j][0];
    InFlatten(more, j, x);
    assert x in multiset(Flatten(more));
    assert x in left;
    LoadAtLeast(lens, more[j], x);
  }

  lemma AllCrowded(lens: seq<nat>, cap: nat, bins: seq<seq<int>>, more: seq<seq<int>>, left: seq<int>)
    requires BinsOk(lens, cap, bins) && LargeFirst(lens, cap, bins) && BinsOk(lens, cap, more)
    requires forall b :: 0 <= b < |bins| ==> FullFor(lens, cap, bins[b], left)
    requires multiset(Flatten(more)) == multiset(left) && Crowded(lens, cap, more)
    ensures BinsOk(lens, cap, bins + more) && Crowded(lens, cap, bins + more)
  {
    var all, n := bins + more, |bins|;
    forall i | 0 <= i < |all| ensures BinOk(lens, cap, all[i]) {
      if i >= n { assert BinOk(lens, cap, more[i - n]); }
    }
    forall i, j | 0 <= i < j < |all| ensures BinLoad(lens, all[i]) + BinLoad(lens, all[j]) > cap {
      if j < n {
        BinHasMoreThanHalf(lens, cap, bins[i]);
        BinHasMoreThanHalf(lens, cap, bins[j]);
      } else if i < n {
        LeftoverCrowds(lens, cap, bins[i], more, left, j - n);
      } else {
        assert Loads(lens, cap, more)[i - n] + Loads(lens, cap, more)[j - n] > cap;
      }
    }
  }

  ghost predicate AllPositive(lens: seq<nat>, cap: nat) { cap > 0 && forall i :: 0 <= i < |lens| ==> lens[i] > 0 }

  /** The whole packer: no sequence is lost or packed twice, no bin is empty or over
      capacity, and any two bins together hold more than one could. */
  method ModifiedFirstFitDecreasing(lens: seq<nat>, cap: nat) returns (result: Packed)
    ensures result.NotPositive? <==> !AllPositive(lens, cap)
    ensures result.TooLong? <==> AllPositive(lens, cap) && SomeTooLong(lens, cap)
    ensures AllPositive(lens, cap) && !SomeTooLong(lens, cap) ==> result.Bins? && IsPacking(lens, cap, result.bins)
    ensures result.Bins? ==> Crowded(lens, cap, result.bins)
  {
    if cap == 0 || exists i :: 0 <= i < |lens| && lens[i] == 0 {
      return NotPositive;
    }
    if exists i :: 0 <= i < |lens| && lens[i] > cap {
      return TooLong;
    }
    var c := Classify(lens, cap);
    var bins, left := Phases(lens, cap, c);
    bins := PackLeftovers(lens, cap, bins, left);
    result := Bins(bins);
  }

  lemma SortedLarge(lens: seq<nat>, cap: nat, c: Classes)
    requires AllInRange(c, |lens|) && RightClasses(lens, cap, c)
    ensures InRange(SortedBySize(lens, c.large, -1), |lens|)
    ensures forall i :: 0 <= i < |c.large| ==> cap < 2 * lens[SortedBySize(lens, c.large, -1)[i]]
  {
    var large := SortedBySize(lens, c.large, -1);
    SortKeepsItems(lens, c.large, -1);
    forall i | 0 <= i < |large| ensures cap < 2 * lens[large[i]] {
      assert large[i] in multiset(large);
      assert large[i] in c.large;
    }
  }

  /** Phases 1 to 3. */
  method LargeMediumSmall(lens: seq<nat>, cap: nat, large: seq<int>, medium: seq<int>, small: seq<int>)
    returns (bins: seq<seq<int>>, medium': seq<int>, small': seq<int>)
    requires InRange(large, |lens|) && BySize(lens, medium, -1) && InRange(small, |lens|) && !SomeTooLong(lens, cap)
    requires forall i :: 0 <= i < |large| ==> cap < 2 * lens[large[i]]
    ensures BinsOk(lens, cap, bins) && InRange(medium', |lens|) && InRange(small', |lens|)
    ensures multiset(Flatten(bins)) + multiset(medium') + multiset(small')
         == multiset(large) + multiset(medium) + multiset(small)
    ensures |bins| == |large| && LargeFirst(lens, cap, bins)
  {
    bins := StartBins(lens, cap, large);
    ghost var start := bins;
    bins, medium' := AddMedium(lens, cap, bins, medium);
    ghost var before := bins;
    assert LargeFirst(lens, cap, start) && Grows(start, bins);
    bins, small' := AddPairs(lens, cap, bins, small);
    GrownStartLarge(lens, cap, start, before);
    GrownStartLarge(lens, cap, before, bins);
    assert multiset(Flatten(bins)) + multiset(medium') + multiset(small')
        == multiset(Flatten(before)) + multiset(small) + multiset(medium');
  }

  /** Phases 1 to 4. */
  method Phases(lens: seq<nat>, cap: nat, c: Classes) returns (bins: seq<seq<int>>, left: seq<int>)
    requires AllInRange(c, |lens|) && RightClasses(lens, cap, c) && !SomeTooLong(lens, cap)
    ensures BinsOk(lens, cap, bins) && InRange(left, |lens|) && Held(bins, left) == Everything(c)
    ensures |bins| == |c.large| && LargeFirst(lens, cap, bins)
    ensures forall b :: 0 <= b < |bins| ==> FullFor(lens, cap, bins[b], left)
  {
    SortKeepsItems(lens, c.large, -1);
    SortKeepsItems(lens, c.medium, -1);
    SortKeepsItems(lens, c.small, 1);
    SortKeepsItems(lens, c.tiny, 1);
    SortedLarge(lens, cap, c);
    SortedBySizeIsSorted(lens, c.medium, -1);
    var tiny := SortedBySize(lens, c.tiny, 1);
    var medium, small;
    bins, medium, small := LargeMediumSmall(lens, cap, SortedBySize(lens, c.large, -1),
                                            SortedBySize(lens, c.medium, -1), SortedBySize(lens, c.small, 1));
    ghost var held := multiset(Flatten(bins)) + multiset(medium) + multiset(small) + multiset(tiny);
    assert held == Everything(c);
    ghost var before := bins;
    bins, left := Greedy(lens, cap, bins, medium + small + tiny);
    GrownStartLarge(lens, cap, before, bins);
    assert multiset(medium + small + tiny) == multiset(medium) + multiset(small) + multiset(tiny);
  }

  /** Phase 4: what is left, largest first, into the bins there are. */
  method Greedy(lens: seq<nat>, cap: nat, bins: seq<seq<int>>, items: seq<int>)
    returns (bins': seq<seq<int>>, left: seq<int>)
    requires BinsOk(lens, cap, bins) && InRange(items, |lens|)
    ensures BinsOk(lens, cap, bins') && InRange(left, |lens|) && Held(bins', left) == Held(bins, items)
    ensures Grows(bins, bins') && forall b :: 0 <= b < |bins'| ==> FullFor(lens, cap, bins'[b], left)
  {
    SortKeepsItems(lens, items, -1);
    SortedBySizeIsSorted(lens, items, -1);
    bins', left := FillBins(lens, cap, bins, SortedBySize(lens, items, -1));
  }
}
