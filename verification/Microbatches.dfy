/** The greedy microbatch loop of dynamic batching
    (`BatchedDataDict.shard_by_batch_size`, nemo_rl/distributed/batched_data_dict.py). */
module Microbatches {
  import opened Lists
  import opened Sorting

  /** Positions start, ..., end - 1 of a shard. */
  datatype Interval = Interval(start: nat, end: nat)

  /** The largest of `lens[a..b]`, 0 when there is none. */
  function MaxIn(lens: seq<nat>, a: nat, b: nat): nat
    requires a <= b <= |lens|
  {
    if a == b then 0 else Max(MaxIn(lens, a, b - 1), lens[b - 1])
  }

  /** Tokens of a microbatch after padding every row to the longest. */
  function Tokens(lens: seq<nat>, a: nat, b: nat): nat
    requires a <= b <= |lens|
  {
    (b - a) * MaxIn(lens, a, b)
  }

  predicate Fits(lens: seq<nat>, iv: Interval, cap: int) {
    iv.start < iv.end <= |lens| && Tokens(lens, iv.start, iv.end) <= cap
  }

  /** The intervals are adjacent, not empty and cover exactly 0 .. n. */
  predicate Tiles(ivs: seq<Interval>, n: nat) {
    && (forall j :: 0 <= j < |ivs| ==> ivs[j].start < ivs[j].end)
    && (forall j :: 0 < j < |ivs| ==> ivs[j].start == ivs[j - 1].end)
    && (if ivs == [] then n == 0 else ivs[0].start == 0 && ivs[|ivs| - 1].end == n)
  }

  predicate IsSchedule(lens: seq<nat>, cap: int, ivs: seq<Interval>) {
    Tiles(ivs, |lens|) && forall j :: 0 <= j < |ivs| ==> Fits(lens, ivs[j], cap)
  }

  /** No microbatch but the last has room for the position after it. */
  predicate IsGreedy(lens: seq<nat>, cap: int, ivs: seq<Interval>)
    requires IsSchedule(lens, cap, ivs)
  {
    forall j :: 0 <= j < |ivs| - 1 ==> !Fits(lens, Interval(ivs[j].start, ivs[j].end + 1), cap)
  }

  // ---------------------------------------------------------------- fitting is monotone

  lemma {:induction false} MaxInWider(lens: seq<nat>, a: nat, a': nat, b': nat, b: nat)
    requires a <= a' <= b' <= b <= |lens|
    ensures MaxIn(lens, a', b') <= MaxIn(lens, a, b)
    decreases b
  {
    if b' < b {
      MaxInWider(lens, a, a', b', b - 1);
    } else if a' < b' {
      MaxInWider(lens, a, a', b' - 1, b - 1);
    }
  }

  lemma MulMonotone(a: nat, b: nat, c: nat, d: nat)
    requires a <= b && c <= d
    ensures a * c <= b * d
  {
    assert b * d == a * d + (b - a) * d;
    assert a * d == a * c + a * (d - c);
  }

  lemma FitsNarrower(lens: seq<nat>, wide: Interval, narrow: Interval, cap: int)
    requires Fits(lens, wide, cap)
    requires wide.start <= narrow.start < narrow.end <= wide.end
    ensures Fits(lens, narrow, cap)
  {
    MaxInWider(lens, wide.start, narrow.start, narrow.end, wide.end);
    MulMonotone(narrow.end - narrow.start, wide.end - wide.start,
                MaxIn(lens, narrow.start, narrow.end), MaxIn(lens, wide.start, wide.end));
  }

  // ---------------------------------------------------------------- optimality

  lemma {:induction false} EndsIncrease(ivs: seq<Interval>, n: nat, i: nat, j: nat)
    requires Tiles(ivs, n) && i <= j < |ivs|
    ensures ivs[i].end <= ivs[j].end && (i < j ==> ivs[i].end < ivs[j].end)
    decreases j
  {
    if i < j { EndsIncrease(ivs, n, i, j - 1); }
  }

  /** After any number of microbatches the greedy schedule is at least as far as any other. */
  lemma {:induction false} GreedyStaysAhead(lens: seq<nat>, cap: int, greedy: seq<Interval>, other: seq<Interval>,
                                            j: nat)
    requires IsSchedule(lens, cap, greedy) && IsGreedy(lens, cap, greedy) && IsSchedule(lens, cap, other)
    requires j < |other| && j < |greedy|
    ensures other[j].end <= greedy[j].end
  {
    if j > 0 {
      GreedyStaysAhead(lens, cap, greedy, other, j - 1);
    }
    EndsIncrease(other, |lens|, j, |other| - 1);
    if other[j].end > greedy[j].end && j < |greedy| - 1 {
      FitsNarrower(lens, other[j], Interval(greedy[j].start, greedy[j].end + 1), cap);
    }
  }

  /** No other split of the positions into contiguous microbatches within the cap uses fewer. */
  lemma GreedyIsOptimal(lens: seq<nat>, cap: int, greedy: seq<Interval>, other: seq<Interval>)
    requires IsSchedule(lens, cap, greedy) && IsGreedy(lens, cap, greedy) && IsSchedule(lens, cap, other)
    ensures |greedy| <= |other|
  {
    if |other| < |greedy| && other != [] {
      var j := |other| - 1;
      GreedyStaysAhead(lens, cap, greedy, other, j);
      EndsIncrease(greedy, |lens|, j, |greedy| - 1);
    }
  }

  // ---------------------------------------------------------------- any grouping at all

  function Count(f: seq<nat>, c: nat): nat {
    if f == [] then 0 else Count(f[..|f| - 1], c) + if f[|f| - 1] == c then 1 else 0
  }

  /** Position `p` goes to microbatch `f[p]`; every microbatch keeps the cap once its rows
      are padded to its longest, that is, for the length of each of its rows. */
  predicate IsGrouping(lens: seq<nat>, cap: int, f: seq<nat>) {
    |f| == |lens| && forall p :: 0 <= p < |f| ==> Count(f, f[p]) * lens[p] <= cap
  }

  function Used(f: seq<nat>): set<nat> { set c | c in f }

  /** Positions of `f` not in microbatch `c`, ascending. */
  function Outside(f: seq<nat>, c: nat): (r: seq<nat>)
    ensures |r| + Count(f, c) == |f|
    ensures forall i :: 0 <= i < |r| ==> i <= r[i] < |f| && f[r[i]] != c
  {
    if f == [] then []
    else Outside(f[..|f| - 1], c) + if f[|f| - 1] == c then [] else [|f| - 1]
  }

  function Others(f: seq<nat>, c: nat): (r: seq<nat>)
    ensures |r| + Count(f, c) == |f|
  {
    if f == [] then []
    else Others(f[..|f| - 1], c) + if f[|f| - 1] == c then [] else [f[|f| - 1]]
  }

  lemma {:induction false} OthersAt(f: seq<nat>, c: nat)
    ensures |Others(f, c)| == |Outside(f, c)|
    ensures forall i :: 0 <= i < |Others(f, c)| ==> Others(f, c)[i] == f[Outside(f, c)[i]]
  {
    if f != [] { OthersAt(f[..|f| - 1], c); }
  }

  lemma {:induction false} CountOthers(f: seq<nat>, c: nat, d: nat)
    requires c != d
    ensures Count(Others(f, c), d) == Count(f, d)
  {
    if f != [] {
      var f', x := f[..|f| - 1], f[|f| - 1];
      CountOthers(f', c, d);
      var rest := Others(f', c);
      if x == c {
        assert Others(f, c) == rest;
      } else {
        assert Others(f, c) == rest + [x];
        assert (rest + [x])[..|rest|] == rest;
      }
    }
  }

  lemma {:induction false} UsedOthers(f: seq<nat>, c: nat)
    ensures Used(Others(f, c)) == Used(f) - {c}
  {
    if f != [] {
      var f', x := f[..|f| - 1], f[|f| - 1];
      UsedOthers(f', c);
      assert f == f' + [x];
      assert Used(f) == Used(f') + {x};
      assert Used(Others(f', c) + [x]) == Used(Others(f', c)) + {x};
    }
  }

  /** Dropping the microbatch of the last (longest) position leaves a grouping of the
      shortest positions. */
  lemma DropLastGroup(lens: seq<nat>, cap: int, f: seq<nat>, m: nat)
    requires NonDecreasing(lens) && IsGrouping(lens, cap, f) && f != []
    requires m == Count(f, f[|f| - 1])
    ensures 0 < m <= |lens|
    ensures IsGrouping(lens[..|lens| - m], cap, Others(f, f[|f| - 1]))
  {
    var c := f[|f| - 1];
    var rest := Others(f, c);
    assert |rest| + m == |f|;
    OthersAt(f, c);
    var pos := Outside(f, c);
    forall p | 0 <= p < |rest| ensures Count(rest, rest[p]) * lens[p] <= cap {
      CountOthers(f, c, rest[p]);
      assert p <= pos[p] && lens[p] <= lens[pos[p]];
      MulMonotone(Count(f, rest[p]), Count(f, rest[p]), lens[p], lens[pos[p]]);
    }
  }

  lemma {:induction false} MaxInSorted(lens: seq<nat>, a: nat, b: nat)
    requires NonDecreasing(lens) && a < b <= |lens|
    ensures MaxIn(lens, a, b) == lens[b - 1]
  {
    if a < b - 1 { MaxInSorted(lens, a, b - 1); }
  }

  lemma {:induction false} MaxInPrefix(lens: seq<nat>, a: nat, b: nat, k: nat)
    requires a <= b <= k <= |lens|
    ensures MaxIn(lens[..k], a, b) == MaxIn(lens, a, b)
  {
    if a < b { MaxInPrefix(lens, a, b - 1, k); }
  }

  /** When lengths do not decrease, any grouping can be turned into contiguous microbatches
      without using more of them. */
  lemma {:induction false} GroupingToSchedule(lens: seq<nat>, cap: int, f: seq<nat>) returns (ivs: seq<Interval>)
    requires NonDecreasing(lens) && IsGrouping(lens, cap, f)
    ensures IsSchedule(lens, cap, ivs) && |ivs| <= |Used(f)|
    decreases |lens|
  {
    if f == [] {
      ivs := [];
    } else {
      var n, c := |lens|, f[|f| - 1];
      var m := Count(f, c);
      DropLastGroup(lens, cap, f, m);
      var shorter := GroupingToSchedule(lens[..n - m], cap, Others(f, c));
      UsedOthers(f, c);
      assert c in Used(f);
      assert Count(f, f[n - 1]) * lens[n - 1] <= cap;
      AppendLongest(lens, cap, shorter, m);
      ivs := shorter + [Interval(n - m, n)];
    }
  }

  lemma AppendLongest(lens: seq<nat>, cap: int, shorter: seq<Interval>, m: nat)
    requires 0 < m <= |lens| && NonDecreasing(lens) && m * lens[|lens| - 1] <= cap
    requires IsSchedule(lens[..|lens| - m], cap, shorter)
    ensures IsSchedule(lens, cap, shorter + [Interval(|lens| - m, |lens|)])
  {
    var n := |lens|;
    MaxInSorted(lens, n - m, n);
    forall j | 0 <= j < |shorter| ensures Fits(lens, shorter[j], cap) {
      assert Fits(lens[..n - m], shorter[j], cap);
      MaxInPrefix(lens, shorter[j].start, shorter[j].end, n - m);
    }
  }

  /** On non-decreasing lengths the greedy schedule beats every way of grouping the
      positions, contiguous or not. */
  lemma GreedyBeatsEveryGrouping(lens: seq<nat>, cap: int, greedy: seq<Interval>, f: seq<nat>)
    requires IsSchedule(lens, cap, greedy) && IsGreedy(lens, cap, greedy)
    requires NonDecreasing(lens) && IsGrouping(lens, cap, f)
    ensures |greedy| <= |Used(f)|
  {
    var other := GroupingToSchedule(lens, cap, f);
    GreedyIsOptimal(lens, cap, greedy, other);
  }

  // ---------------------------------------------------------------- the loop

  /** Rounded up to a multiple, then cut to the width of the token tensor. */
  function PaddedLength(len: nat, roundTo: int, width: nat): (r: nat)
    requires 0 < roundTo
  {
    Min(RoundUp(len, roundTo), width)
  }

  /** Longest row at position `p` over all shards. */
  function LongestAt(shards: seq<seq<nat>>, p: nat): (r: nat)
    requires forall s :: s in shards ==> p < |s|
    ensures forall s :: s in shards ==> s[p] <= r
  {
    if shards == [] then 0 else Max(LongestAt(shards[..|shards| - 1], p), shards[|shards| - 1][p])
  }

  lemma {:induction false} LongestAttained(shards: seq<seq<nat>>, p: nat) returns (i: nat)
    requires shards != [] && forall s :: s in shards ==> p < |s|
    ensures i < |shards| && shards[i][p] == LongestAt(shards, p)
  {
    var m := |shards| - 1;
    i := m;
    if LongestAt(shards[..m], p) > shards[m][p] {
      i := LongestAttained(shards[..m], p);
    }
  }

  predicate SameLength(shards: seq<seq<nat>>, n: nat) { forall s :: s in shards ==> |s| == n }

  function PositionLengths(shards: seq<seq<nat>>, n: nat, roundTo: int, width: nat): (r: seq<nat>)
    requires SameLength(shards, n) && 0 < roundTo
  {
    seq(n, p requires 0 <= p < n => PaddedLength(LongestAt(shards, p), roundTo, width))
  }

  /** What one chunk becomes: the microbatches, each with its padded length; or the
      AssertionError for a row longer than a whole microbatch. */
  datatype Plan = TooLong | Plan(ivs: seq<Interval>, lengths: seq<nat>)

  method LongestRow(shards: seq<seq<nat>>, p: nat) returns (r: nat)
    requires forall s :: s in shards ==> p < |s|
    ensures r == LongestAt(shards, p)
  {
    r := 0;
    for i := 0 to |shards|
      invariant r == LongestAt(shards[..i], p)
    {
      assert shards[..i + 1][..i] == shards[..i];
      r := Max(r, shards[i][p]);
    }
    assert shards[..|shards|] == shards;
  }

  /** The schedule of the first `p` positions. */
  predicate Built(lens: seq<nat>, cap: int, ivs: seq<Interval>, lengths: seq<nat>, p: nat) {
    && 0 < p <= |lens| && Tiles(ivs, p)
    && (forall j :: 0 <= j < |ivs| ==> Fits(lens, ivs[j], cap))
    && (forall j :: 0 <= j < |ivs| - 1 ==> !Fits(lens, Interval(ivs[j].start, ivs[j].end + 1), cap))
    && |lengths| == |ivs|
    && (forall j :: 0 <= j < |ivs| && ivs[j].start <= ivs[j].end <= |lens| ==>
          lengths[j] == MaxIn(lens, ivs[j].start, ivs[j].end))
  }

  lemma Grow(lens: seq<nat>, cap: int, ivs: seq<Interval>, lengths: seq<nat>, p: nat)
    requires Built(lens, cap, ivs, lengths, p) && p < |lens|
    requires Fits(lens, Interval(ivs[|ivs| - 1].start, p + 1), cap)
    ensures Built(lens, cap, ivs[|ivs| - 1 := Interval(ivs[|ivs| - 1].start, p + 1)],
                  lengths[|ivs| - 1 := MaxIn(lens, ivs[|ivs| - 1].start, p + 1)], p + 1)
  {}

  lemma Open(lens: seq<nat>, cap: int, ivs: seq<Interval>, lengths: seq<nat>, p: nat)
    requires Built(lens, cap, ivs, lengths, p) && p < |lens| && lens[p] <= cap
    requires !Fits(lens, Interval(ivs[|ivs| - 1].start, p + 1), cap)
    ensures Built(lens, cap, ivs + [Interval(p, p + 1)], lengths + [lens[p]], p + 1)
  {
    TilesSnoc(ivs, p);
    LastOne(lens, p);
    var ivs', lengths' := ivs + [Interval(p, p + 1)], lengths + [lens[p]];
    forall j | 0 <= j < |ivs'|
      ensures Fits(lens, ivs'[j], cap)
      ensures j < |ivs'| - 1 ==> !Fits(lens, Interval(ivs'[j].start, ivs'[j].end + 1), cap)
      ensures lengths'[j] == MaxIn(lens, ivs'[j].start, ivs'[j].end)
    {
      if j < |ivs| {
        assert ivs'[j] == ivs[j] && lengths'[j] == lengths[j] && Fits(lens, ivs[j], cap);
      }
    }
  }

  lemma TilesSnoc(ivs: seq<Interval>, p: nat)
    requires Tiles(ivs, p) && 0 < p
    ensures Tiles(ivs + [Interval(p, p + 1)], p + 1)
  {}

  lemma LastOne(lens: seq<nat>, p: nat)
    requires p < |lens|
    ensures MaxIn(lens, p, p + 1) == lens[p] == Tokens(lens, p, p + 1)
  {
    assert MaxIn(lens, p, p + 1) == lens[p];
  }

  /** The loop's answer on a chunk of `lens`: TooLong exactly when some row does not fit a
      microbatch; otherwise the greedy schedule and each microbatch's padded length. */
  ghost predicate IsPlan(lens: seq<nat>, cap: int, plan: Plan) {
    match plan
    case TooLong => exists p :: 0 <= p < |lens| && lens[p] > cap
    case Plan(ivs, lengths) =>
      && (forall p :: 0 <= p < |lens| ==> lens[p] <= cap)
      && (if |lens| == 0 then ivs == [Interval(0, 0)] && lengths == [0]
          else Built(lens, cap, ivs, lengths, |lens|))
  }

  lemma PlanIsGreedy(lens: seq<nat>, cap: int, plan: Plan)
    requires IsPlan(lens, cap, plan) && plan.Plan? && lens != []
    ensures IsSchedule(lens, cap, plan.ivs) && IsGreedy(lens, cap, plan.ivs)
  {}

  /** On ascending positions the microbatches' lengths never decrease. */
  lemma LengthsAscend(lens: seq<nat>, cap: int, plan: Plan)
    requires IsPlan(lens, cap, plan) && plan.Plan? && lens != [] && NonDecreasing(lens)
    ensures NonDecreasing(plan.lengths)
  {
    forall j, k | 0 <= j <= k < |plan.lengths| ensures plan.lengths[j] <= plan.lengths[k] {
      LengthIsLast(lens, cap, plan, j);
      LengthIsLast(lens, cap, plan, k);
      EndsIncrease(plan.ivs, |lens|, j, k);
    }
  }

  lemma LengthIsLast(lens: seq<nat>, cap: int, plan: Plan, j: nat)
    requires IsPlan(lens, cap, plan) && plan.Plan? && lens != [] && NonDecreasing(lens) && j < |plan.lengths|
    ensures |plan.ivs| == |plan.lengths| && 0 < plan.ivs[j].end <= |lens|
    ensures plan.lengths[j] == lens[plan.ivs[j].end - 1]
  {
    assert Fits(lens, plan.ivs[j], cap);
    MaxInSorted(lens, plan.ivs[j].start, plan.ivs[j].end);
  }

  /** Position `p` holds the longest row of all positions a, ..., b - 1 on all shards. */
  ghost predicate LongestIn(shards: seq<seq<nat>>, a: nat, b: nat, i: nat, p: nat) {
    && i < |shards| && a <= p < b && p < |shards[i]|
    && forall i', p' :: 0 <= i' < |shards| && a <= p' < b && p' < |shards[i']| ==> shards[i'][p'] <= shards[i][p]
  }

  lemma {:induction false} LongestPosition(shards: seq<seq<nat>>, n: nat, a: nat, b: nat) returns (i: nat, p: nat)
    requires SameLength(shards, n) && shards != [] && a < b <= n
    ensures LongestIn(shards, a, b, i, p) && shards[i][p] == LongestAt(shards, p)
  {
    p := b - 1;
    i := LongestAttained(shards, p);
    if a < b - 1 {
      var i0, p0 := LongestPosition(shards, n, a, b - 1);
      if shards[i0][p0] > shards[i][p] {
        i, p := i0, p0;
      }
    }
    forall i', p' | 0 <= i' < |shards| && a <= p' < b ensures shards[i'][p'] <= shards[i][p] {
      assert shards[i'] in shards && shards[i'][p'] <= LongestAt(shards, p');
    }
  }

  lemma {:induction false} MaxInIs(lens: seq<nat>, a: nat, b: nat, p: nat)
    requires a <= p < b <= |lens| && forall q :: a <= q < b ==> lens[q] <= lens[p]
    ensures MaxIn(lens, a, b) == lens[p]
  {
    if p == b - 1 {
      MaxInBelow(lens, a, b - 1, lens[p]);
    } else {
      MaxInIs(lens, a, b - 1, p);
    }
  }

  lemma {:induction false} MaxInBelow(lens: seq<nat>, a: nat, b: nat, bound: nat)
    requires a <= b <= |lens| && forall q :: a <= q < b ==> lens[q] <= bound
    ensures MaxIn(lens, a, b) <= bound
  {
    if a < b { MaxInBelow(lens, a, b - 1, bound); }
  }

  lemma PaddedAscends(x: nat, y: nat, roundTo: int, width: nat)
    requires 0 < roundTo && x <= y
    ensures PaddedLength(x, roundTo, width) <= PaddedLength(y, roundTo, width)
  {
    RoundUpPads(x, roundTo);
    RoundUpPads(y, roundTo);
    PadsAscend(x, y, roundTo, RoundUp(x, roundTo), RoundUp(y, roundTo));
  }

  /** The padded length of one position over all shards. */
  lemma PositionMeans(shards: seq<seq<nat>>, n: nat, roundTo: int, width: nat, p: nat) returns (i: nat, m: int)
    requires SameLength(shards, n) && shards != [] && 0 < roundTo && p < n
    ensures LongestIn(shards, p, p + 1, i, p) && PadsTo(shards[i][p], roundTo, m)
    ensures PositionLengths(shards, n, roundTo, width)[p] == Min(m, width)
  {
    i := LongestAttained(shards, p);
    m := RoundUp(shards[i][p], roundTo);
    RoundUpPads(shards[i][p], roundTo);
    forall i' | 0 <= i' < |shards| ensures shards[i'][p] <= shards[i][p] {
      assert shards[i'] in shards && shards[i'][p] <= LongestAt(shards, p);
    }
  }

  /** A planned length is the least multiple of `roundTo` not below the longest row at the
      microbatch's positions, or the width of the tensor if that is less. */
  lemma PlannedLengthMeans(shards: seq<seq<nat>>, n: nat, roundTo: int, width: nat, cap: int, plan: Plan, j: nat)
    returns (i: nat, p: nat, m: int)
    requires SameLength(shards, n) && shards != [] && 0 < roundTo && 0 < n && plan.Plan? && j < |plan.ivs|
    requires IsPlan(PositionLengths(shards, n, roundTo, width), cap, plan)
    ensures |plan.lengths| == |plan.ivs| && plan.ivs[j].start < plan.ivs[j].end <= n
    ensures LongestIn(shards, plan.ivs[j].start, plan.ivs[j].end, i, p)
    ensures PadsTo(shards[i][p], roundTo, m) && plan.lengths[j] == Min(m, width)
  {
    var lens, iv := PositionLengths(shards, n, roundTo, width), plan.ivs[j];
    assert Fits(lens, iv, cap);
    i, p := LongestPosition(shards, n, iv.start, iv.end);
    forall q | iv.start <= q < iv.end ensures lens[q] <= lens[p] {
      var k := LongestAttained(shards, q);
      PaddedAscends(LongestAt(shards, q), LongestAt(shards, p), roundTo, width);
    }
    MaxInIs(lens, iv.start, iv.end, p);
    m := RoundUp(shards[i][p], roundTo);
    RoundUpPads(shards[i][p], roundTo);
  }

  method PaddedLongest(shards: seq<seq<nat>>, n: nat, p: nat, roundTo: int, width: nat) returns (len: nat)
    requires SameLength(shards, n) && 0 < roundTo && p < n
    ensures len == PositionLengths(shards, n, roundTo, width)[p]
  {
    var row := LongestRow(shards, p);
    len := PaddedLength(row, roundTo, width);
  }

  /** The state of the loop before position `p`. */
  predicate AtPosition(lens: seq<nat>, cap: int, ivs: seq<Interval>, lengths: seq<nat>, longest: nat, p: nat) {
    && |ivs| == |lengths| > 0 && p <= |lens|
    && ivs[|ivs| - 1].start <= ivs[|ivs| - 1].end == p
    && longest == MaxIn(lens, ivs[|ivs| - 1].start, p)
    && if p == 0 then ivs == [Interval(0, 0)] && lengths == [0] else Built(lens, cap, ivs, lengths, p)
  }

  lemma TokensAt(lens: seq<nat>, a: nat, p: nat, longest: nat)
    requires a <= p < |lens| && longest == MaxIn(lens, a, p)
    ensures Tokens(lens, a, p + 1) == (p - a + 1) * Max(longest, lens[p])
  {}

  /** One round of the loop: position `p` of padded length `len` joins the current
      microbatch or opens the next one. */
  method PlaceRow(ghost lens: seq<nat>, cap: int, ivs: seq<Interval>, lengths: seq<nat>, longest: nat, p: nat, len: nat)
    returns (ivs': seq<Interval>, lengths': seq<nat>, longest': nat)
    requires AtPosition(lens, cap, ivs, lengths, longest, p) && p < |lens| && len == lens[p] <= cap
    ensures AtPosition(lens, cap, ivs', lengths', longest', p + 1)
  {
    var last := ivs[|ivs| - 1];
    longest' := Max(longest, len);
    TokensAt(lens, last.start, p, longest);
    if (last.end - last.start + 1) * longest' <= cap {
      if p > 0 { Grow(lens, cap, ivs, lengths, p); } else { First(lens, cap); }
      ivs' := ivs[|ivs| - 1 := Interval(last.start, last.end + 1)];
      lengths' := lengths[|lengths| - 1 := longest'];
    } else {
      Open(lens, cap, ivs, lengths, p);
      ivs' := ivs + [Interval(p, p + 1)];
      longest' := len;
      lengths' := lengths + [longest'];
    }
  }

  lemma First(lens: seq<nat>, cap: int)
    requires lens != [] && lens[0] <= cap
    ensures Built(lens, cap, [Interval(0, 1)], [lens[0]], 1)
  {
    assert MaxIn(lens, 0, 1) == lens[0];
  }

  /** The loop over one chunk; `shards` holds the row lengths of each shard's part of it. */
  method PlanChunk(shards: seq<seq<nat>>, n: nat, roundTo: int, width: nat, cap: int) returns (plan: Plan)
    requires SameLength(shards, n) && 0 < roundTo
    ensures IsPlan(PositionLengths(shards, n, roundTo, width), cap, plan)
  {
    ghost var lens := PositionLengths(shards, n, roundTo, width);
    var ivs: seq<Interval>, lengths: seq<nat>, longest: nat := [Interval(0, 0)], [0], 0;
    for p := 0 to n
      invariant forall q :: 0 <= q < p ==> lens[q] <= cap
      invariant AtPosition(lens, cap, ivs, lengths, longest, p)
    {
      var len := PaddedLongest(shards, n, p, roundTo, width);
      if len > cap {
        return TooLong;
      }
      ivs, lengths, longest := PlaceRow(lens, cap, ivs, lengths, longest, p, len);
    }
    plan := Plan(ivs, lengths);
  }
}
