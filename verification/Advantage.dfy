/** Baselines, variances and advantages per prompt group
    (`calculate_baseline_and_std_per_prompt`, nemo_rl/algorithms/utils.py). */
module Advantage {
  import opened Reals

  // ---------------------------------------------------------------- the group of a prompt

  /** Indices of the samples of prompt `p`. */
  function GroupOf<P(==)>(prompts: seq<P>, p: P): (idx: seq<nat>)
    ensures forall k :: 0 <= k < |idx| ==> idx[k] < |prompts| && prompts[idx[k]] == p
    ensures forall j, k :: 0 <= j < k < |idx| ==> idx[j] < idx[k]
  {
    if prompts == [] then []
    else
      var front := GroupOf(prompts[..|prompts| - 1], p);
      if prompts[|prompts| - 1] == p then front + [|prompts| - 1] else front
  }

  lemma {:induction false} GroupHasAll<P>(prompts: seq<P>, i: nat)
    requires i < |prompts|
    ensures i in GroupOf(prompts, prompts[i])
  {
    if i < |prompts| - 1 { GroupHasAll(prompts[..|prompts| - 1], i); }
  }

  predicate InBounds(idx: seq<nat>, n: nat) { forall k :: 0 <= k < |idx| ==> idx[k] < n }

  predicate Increasing(idx: seq<nat>) { forall j, k :: 0 <= j < k < |idx| ==> idx[j] < idx[k] }

  /** Rewards of the valid samples of a group, without sample `skip` (-1 skips none). */
  function ValidRewards(rewards: seq<real>, valid: seq<bool>, idx: seq<nat>, skip: int): seq<real>
    requires |valid| == |rewards| && InBounds(idx, |rewards|)
  {
    if idx == [] then []
    else
      var k := idx[|idx| - 1];
      ValidRewards(rewards, valid, idx[..|idx| - 1], skip) + if valid[k] && k != skip then [rewards[k]] else []
  }

  function Square(x: real): real { x * x }

  function Squares(x: seq<real>): (r: seq<real>)
    ensures |r| == |x| && forall i :: 0 <= i < |r| ==> r[i] == Square(x[i])
  {
    seq(|x|, i requires 0 <= i < |x| => Square(x[i]))
  }

  /** Baseline and squared std. A group with at most one valid sample keeps its reward as
      baseline; 0 * inf is nan and becomes 0. */
  function Baseline(rewards: seq<real>, valid: seq<bool>, idx: seq<nat>, loo: bool, i: nat): real
    requires |valid| == |rewards| && InBounds(idx, |rewards|) && i < |rewards|
  {
    var count := |ValidRewards(rewards, valid, idx, -1)|;
    var used := ValidRewards(rewards, valid, idx, if loo then i else -1);
    if count <= 1 then rewards[i] else Total(used) / Divisor(count, loo)
  }

  function Divisor(count: nat, loo: bool): (d: real)
    requires count > 1
    ensures d > 0.0 && d == (if loo then count - 1 else count) as real
  {
    if loo then (count - 1) as real else count as real
  }

  /** The value whose square root is the std: mean square minus squared mean, rescaled. */
  function Spread(total: real, squares: real, n: real): real
    requires n > 0.0
  {
    if n == 1.0 then 0.0 else (squares / n - (total / n) * (total / n)) * (n / (n - 1.0))
  }

  function Variance(rewards: seq<real>, valid: seq<bool>, idx: seq<nat>, loo: bool, i: nat): real
    requires |valid| == |rewards| && InBounds(idx, |rewards|) && i < |rewards|
  {
    var count := |ValidRewards(rewards, valid, idx, -1)|;
    var used := ValidRewards(rewards, valid, idx, if loo then i else -1);
    if count <= 1 then 0.0 else Spread(Total(used), Total(Squares(used)), Divisor(count, loo))
  }

  // ---------------------------------------------------------------- the loop over prompts

  lemma ValidSnoc(rewards: seq<real>, valid: seq<bool>, idx: seq<nat>, k: nat, skip: int)
    requires |valid| == |rewards| && InBounds(idx, |rewards|) && k < |idx|
    ensures InBounds(idx[..k + 1], |rewards|) && InBounds(idx[..k], |rewards|)
    ensures ValidRewards(rewards, valid, idx[..k + 1], skip)
         == ValidRewards(rewards, valid, idx[..k], skip)
          + if valid[idx[k]] && idx[k] != skip then [rewards[idx[k]]] else []
  {
    assert idx[..k + 1][..k] == idx[..k];
  }

  /** The entry of the baseline mask matrix, and a flag as a number. */
  function Weight(keep: bool): real { if keep then 1.0 else 0.0 }

  /** One entry of a matrix product: a masked value is added. */
  method AddMasked(sum: real, keep: bool, x: real, ok: bool) returns (r: real)
    ensures r == if ok && keep then sum + x else sum
  {
    r := sum + Weight(keep) * (x * Weight(ok));
  }

  lemma TotalSnoc(rewards: seq<real>, valid: seq<bool>, idx: seq<nat>, k: nat, skip: int)
    requires |valid| == |rewards| && InBounds(idx, |rewards|) && k < |idx|
    ensures InBounds(idx[..k + 1], |rewards|) && InBounds(idx[..k], |rewards|)
    ensures Total(ValidRewards(rewards, valid, idx[..k + 1], skip))
         == Total(ValidRewards(rewards, valid, idx[..k], skip))
          + if valid[idx[k]] && idx[k] != skip then rewards[idx[k]] else 0.0
  {
    ValidSnoc(rewards, valid, idx, k, skip);
    AddOne(ValidRewards(rewards, valid, idx[..k], skip), rewards[idx[k]]);
  }

  lemma SquaresSnoc(rewards: seq<real>, valid: seq<bool>, idx: seq<nat>, k: nat, skip: int)
    requires |valid| == |rewards| && InBounds(idx, |rewards|) && k < |idx|
    ensures InBounds(idx[..k + 1], |rewards|) && InBounds(idx[..k], |rewards|)
    ensures Total(Squares(ValidRewards(rewards, valid, idx[..k + 1], skip)))
         == Total(Squares(ValidRewards(rewards, valid, idx[..k], skip)))
          + if valid[idx[k]] && idx[k] != skip then Square(rewards[idx[k]]) else 0.0
  {
    ValidSnoc(rewards, valid, idx, k, skip);
    Accumulate(ValidRewards(rewards, valid, idx[..k], skip), rewards[idx[k]]);
  }

  /** `total` and `squares` are the sums over the valid rewards of the group, without `skip`. */
  ghost predicate Sums(rewards: seq<real>, valid: seq<bool>, idx: seq<nat>, skip: int, total: real, squares: real)
    requires |valid| == |rewards|
  {
    && InBounds(idx, |rewards|)
    && total == Total(ValidRewards(rewards, valid, idx, skip))
    && squares == Total(Squares(ValidRewards(rewards, valid, idx, skip)))
  }

  lemma SumsSnoc(rewards: seq<real>, valid: seq<bool>, idx: seq<nat>, k: nat, skip: int, total: real, squares: real)
    requires |valid| == |rewards| && InBounds(idx, |rewards|) && k < |idx|
    requires Sums(rewards, valid, idx[..k], skip, total, squares)
    ensures var used, r := valid[idx[k]] && idx[k] != skip, rewards[idx[k]];
            Sums(rewards, valid, idx[..k + 1], skip, if used then total + r else total,
                 if used then squares + Square(r) else squares)
  {
    TotalSnoc(rewards, valid, idx, k, skip);
    SquaresSnoc(rewards, valid, idx, k, skip);
  }

  /** One row of the two matrix products: masked sum of the rewards and of their squares. */
  method RowSums(rewards: seq<real>, valid: seq<bool>, idx: seq<nat>, skip: int) returns (total: real, squares: real)
    requires |valid| == |rewards| && InBounds(idx, |rewards|)
    ensures Sums(rewards, valid, idx, skip, total, squares)
  {
    total, squares := 0.0, 0.0;
    for k := 0 to |idx|
      invariant Sums(rewards, valid, idx[..k], skip, total, squares)
    {
      var b := idx[k];
      SumsSnoc(rewards, valid, idx, k, skip, total, squares);
      total := AddMasked(total, b != skip, rewards[b], valid[b]);
      squares := AddMasked(squares, b != skip, Square(rewards[b]), valid[b]);
    }
    assert idx[..|idx|] == idx;
  }

  lemma Accumulate(x: seq<real>, r: real)
    ensures Total(x + [r]) == Total(x) + r && x + [] == x
    ensures Total(Squares(x + [r])) == Total(Squares(x)) + Square(r)
  {
    assert (x + [r])[..|x|] == x;
    assert Squares(x + [r])[..|x|] == Squares(x);
  }

  lemma AddOne(x: seq<real>, r: real)
    ensures Total(x + [r]) == Total(x) + r && x + [] == x
  {
    assert (x + [r])[..|x|] == x;
  }

  method CountValid(rewards: seq<real>, valid: seq<bool>, idx: seq<nat>) returns (count: nat)
    requires |valid| == |rewards| && InBounds(idx, |rewards|)
    ensures count == |ValidRewards(rewards, valid, idx, -1)|
  {
    count := 0;
    for k := 0 to |idx|
      invariant InBounds(idx[..k], |rewards|) && count == |ValidRewards(rewards, valid, idx[..k], -1)|
    {
      ValidSnoc(rewards, valid, idx, k, -1);
      if valid[idx[k]] { count := count + 1; }
    }
    assert idx[..|idx|] == idx;
  }

  /** Index `i` has been given its values. */
  ghost predicate Done(rewards: seq<real>, valid: seq<bool>, idx: seq<nat>, loo: bool, i: nat, baseline: real,
                       variance: real)
    requires |valid| == |rewards| && InBounds(idx, |rewards|) && i < |rewards|
  {
    baseline == Baseline(rewards, valid, idx, loo, i) && variance == Variance(rewards, valid, idx, loo, i)
  }

  /** The values of sample `i` in a group with more than one valid sample. */
  method OneSample(rewards: seq<real>, valid: seq<bool>, idx: seq<nat>, loo: bool, count: nat, i: nat)
    returns (baseline: real, variance: real)
    requires |valid| == |rewards| && InBounds(idx, |rewards|) && i < |rewards|
    requires count == |ValidRewards(rewards, valid, idx, -1)| > 1
    ensures Done(rewards, valid, idx, loo, i, baseline, variance)
  {
    var total, squares := RowSums(rewards, valid, idx, if loo then i else -1);
    var n := Divisor(count, loo);
    baseline, variance := total / n, Spread(total, squares, n);
  }

  lemma LoneSample(rewards: seq<real>, valid: seq<bool>, idx: seq<nat>, loo: bool, i: nat)
    requires |valid| == |rewards| && InBounds(idx, |rewards|) && i < |rewards|
    requires |ValidRewards(rewards, valid, idx, -1)| <= 1
    ensures Done(rewards, valid, idx, loo, i, rewards[i], 0.0)
  {}

  /** Writes the values of one group, in place. */
  method FillGroup(rewards: seq<real>, valid: seq<bool>, idx: seq<nat>, loo: bool, baseline: array<real>,
                   variance: array<real>)
    requires |valid| == |rewards| == baseline.Length == variance.Length && baseline != variance
    requires InBounds(idx, |rewards|) && Increasing(idx)
    requires forall k :: 0 <= k < |idx| ==> variance[idx[k]] == 0.0
    modifies baseline, variance
    ensures forall i: nat :: i < |rewards| && i in idx ==> Done(rewards, valid, idx, loo, i, baseline[i], variance[i])
    ensures forall i: nat :: i < |rewards| && i !in idx ==>
              baseline[i] == old(baseline[i]) && variance[i] == old(variance[i])
  {
    var count := CountValid(rewards, valid, idx);
    for k := 0 to |idx|
      invariant forall j :: 0 <= j < k ==> Done(rewards, valid, idx, loo, idx[j], baseline[idx[j]], variance[idx[j]])
      invariant forall j :: k <= j < |idx| ==> variance[idx[j]] == 0.0
      invariant forall i: nat :: i < |rewards| && i !in idx ==>
                  baseline[i] == old(baseline[i]) && variance[i] == old(variance[i])
    {
      var i := idx[k];
      if count <= 1 {
        LoneSample(rewards, valid, idx, loo, i);
        baseline[i] := rewards[i];
      } else {
        var b, v := OneSample(rewards, valid, idx, loo, count, i);
        baseline[i] := b;
        variance[i] := v;
      }
    }
  }

  /** The samples of the prompts in `seen` have their values; the others have none yet. */
  ghost predicate Filled<P>(prompts: seq<P>, rewards: seq<real>, valid: seq<bool>, loo: bool, seen: seq<P>,
                                baseline: seq<real>, variance: seq<real>)
  {
    && |prompts| == |rewards| == |valid| == |baseline| == |variance|
    && forall i: nat {:trigger baseline[i]} {:trigger variance[i]} :: i < |rewards| ==>
         if prompts[i] in seen then Done(rewards, valid, GroupOf(prompts, prompts[i]), loo, i, baseline[i], variance[i])
         else variance[i] == 0.0
  }

  lemma GroupMembers<P>(prompts: seq<P>, p: P, i: nat)
    requires i < |prompts|
    ensures i in GroupOf(prompts, p) <==> prompts[i] == p
  {
    GroupHasAll(prompts, i);
  }

  /** Serves one more prompt. */
  method FillPrompt<P(==)>(prompts: seq<P>, rewards: seq<real>, valid: seq<bool>, loo: bool, ghost seen: seq<P>, p: P,
                           baseline: array<real>, variance: array<real>)
    requires baseline != variance && p !in seen
    requires Filled(prompts, rewards, valid, loo, seen, baseline[..], variance[..])
    modifies baseline, variance
    ensures Filled(prompts, rewards, valid, loo, seen + [p], baseline[..], variance[..])
  {
    var idx := GroupOf(prompts, p);
    forall k | 0 <= k < |idx| ensures variance[idx[k]] == 0.0 {
      assert variance[..][idx[k]] == 0.0;
    }
    ghost var b0, v0 := baseline[..], variance[..];
    FillGroup(rewards, valid, idx, loo, baseline, variance);
    forall i: nat | i < |rewards|
      ensures if prompts[i] in seen + [p]
              then Done(rewards, valid, GroupOf(prompts, prompts[i]), loo, i, baseline[..][i], variance[..][i])
              else variance[..][i] == 0.0
    {
      GroupMembers(prompts, p, i);
      if prompts[i] != p {
        assert baseline[i] == b0[i] && variance[i] == v0[i];
      }
    }
  }

  /** The whole function: every sample gets the values of its own prompt's group. */
  method BaselineAndStdPerPrompt<P(==)>(prompts: seq<P>, rewards: seq<real>, valid: seq<bool>, loo: bool)
    returns (baseline: array<real>, variance: array<real>)
    requires |prompts| == |rewards| == |valid|
    ensures fresh(baseline) && fresh(variance) && baseline.Length == variance.Length == |rewards|
    ensures forall i: nat :: i < |rewards| ==>
              Done(rewards, valid, GroupOf(prompts, prompts[i]), loo, i, baseline[i], variance[i])
  {
    var n := |rewards|;
    baseline, variance := new real[n](_ => 0.0), new real[n](_ => 0.0);
    var unique := Unique(prompts);
    for u := 0 to |unique|
      invariant Filled(prompts, rewards, valid, loo, unique[..u], baseline[..], variance[..])
    {
      FillPrompt(prompts, rewards, valid, loo, unique[..u], unique[u], baseline, variance);
      assert unique[..u + 1] == unique[..u] + [unique[u]];
    }
    assert unique[..|unique|] == unique;
    forall i: nat | i < n ensures Done(rewards, valid, GroupOf(prompts, prompts[i]), loo, i, baseline[i], variance[i]) {
      assert baseline[..][i] == baseline[i] && variance[..][i] == variance[i];
    }
  }

  method Unique<P(==)>(prompts: seq<P>) returns (unique: seq<P>)
    ensures forall i :: 0 <= i < |prompts| ==> prompts[i] in unique
    ensures forall i, j :: 0 <= i < j < |unique| ==> unique[i] != unique[j]
  {
    unique := [];
    for k := 0 to |prompts|
      invariant forall i :: 0 <= i < k ==> prompts[i] in unique
      invariant forall i, j :: 0 <= i < j < |unique| ==> unique[i] != unique[j]
    {
      if prompts[k] !in unique {
        unique := unique + [prompts[k]];
      }
    }
  }

  // ---------------------------------------------------------------- advantages sum to zero

  /** Sum of reward - baseline over the valid samples among the first `k` of the group. */
  function AdvantageSum(rewards: seq<real>, valid: seq<bool>, idx: seq<nat>, loo: bool, k: nat): real
    requires |valid| == |rewards| && InBounds(idx, |rewards|) && k <= |idx|
  {
    if k == 0 then 0.0
    else
      var i := idx[k - 1];
      AdvantageSum(rewards, valid, idx, loo, k - 1)
      + if valid[i] then rewards[i] - Baseline(rewards, valid, idx, loo, i) else 0.0
  }

  lemma {:induction false} WithoutOne(rewards: seq<real>, valid: seq<bool>, idx: seq<nat>, i: nat)
    requires |valid| == |rewards| && InBounds(idx, |rewards|) && Increasing(idx) && i < |rewards| && valid[i]
    ensures Total(ValidRewards(rewards, valid, idx, i))
         == Total(ValidRewards(rewards, valid, idx, -1)) - if i in idx then rewards[i] else 0.0
  {
    if idx != [] {
      var m := |idx| - 1;
      WithoutOne(rewards, valid, idx[..m], i);
      LastIsNew(idx, i);
      AddOne(ValidRewards(rewards, valid, idx[..m], i), rewards[idx[m]]);
      AddOne(ValidRewards(rewards, valid, idx[..m], -1), rewards[idx[m]]);
    }
  }

  /** Baseline of a sample with reward `r` in a group with this total. */
  function Share(total: real, r: real, inv: real, loo: bool): real {
    (total - if loo then r else 0.0) * inv
  }

  /** Sum of r - Share(total, r) over `n` rewards that sum to `seen`. */
  function ShareSum(seen: real, n: real, total: real, inv: real, loo: bool): real {
    seen - (n * total - if loo then seen else 0.0) * inv
  }

  lemma StepAlgebra(seen: real, n: real, r: real, total: real, inv: real, loo: bool)
    ensures ShareSum(seen, n, total, inv, loo) + (r - Share(total, r, inv, loo))
         == ShareSum(seen + r, n + 1.0, total, inv, loo)
  {}

  lemma {:induction false} PrefixAdvantages(rewards: seq<real>, valid: seq<bool>, idx: seq<nat>, loo: bool, k: nat,
                                            total: real, inv: real)
    requires |valid| == |rewards| && InBounds(idx, |rewards|) && k <= |idx|
    requires forall j :: 0 <= j < |idx| && valid[idx[j]] ==> HasShare(rewards, valid, idx, loo, idx[j], total, inv)
    ensures InBounds(idx[..k], |rewards|)
    ensures SumsTo(rewards, valid, idx, loo, k, ValidRewards(rewards, valid, idx[..k], -1), total, inv)
  {
    if k > 0 {
      PrefixAdvantages(rewards, valid, idx, loo, k - 1, total, inv);
      ValidSnoc(rewards, valid, idx, k - 1, -1);
      assert valid[idx[k - 1]] ==> HasShare(rewards, valid, idx, loo, idx[k - 1], total, inv);
      NextAdvantage(rewards, valid, idx, loo, k - 1, ValidRewards(rewards, valid, idx[..k - 1], -1), total, inv);
    }
  }

  /** The advantages of the first `k` samples add up to what their valid rewards `seen` say. */
  ghost predicate SumsTo(rewards: seq<real>, valid: seq<bool>, idx: seq<nat>, loo: bool, k: nat, seen: seq<real>,
                         total: real, inv: real)
    requires |valid| == |rewards| && InBounds(idx, |rewards|) && k <= |idx|
  {
    AdvantageSum(rewards, valid, idx, loo, k) == ShareSum(Total(seen), |seen| as real, total, inv, loo)
  }

  lemma NextAdvantage(rewards: seq<real>, valid: seq<bool>, idx: seq<nat>, loo: bool, k: nat, seen: seq<real>,
                      total: real, inv: real)
    requires |valid| == |rewards| && InBounds(idx, |rewards|) && k < |idx|
    requires SumsTo(rewards, valid, idx, loo, k, seen, total, inv)
    requires valid[idx[k]] ==> HasShare(rewards, valid, idx, loo, idx[k], total, inv)
    ensures SumsTo(rewards, valid, idx, loo, k + 1, seen + if valid[idx[k]] then [rewards[idx[k]]] else [], total, inv)
  {
    AddOne(seen, rewards[idx[k]]);
    StepAlgebra(Total(seen), |seen| as real, rewards[idx[k]], total, inv, loo);
  }

  ghost predicate HasShare(rewards: seq<real>, valid: seq<bool>, idx: seq<nat>, loo: bool, i: nat, total: real,
                           inv: real)
    requires |valid| == |rewards| && InBounds(idx, |rewards|) && i < |rewards|
  {
    Baseline(rewards, valid, idx, loo, i) == Share(total, rewards[i], inv, loo)
  }

  lemma OneBaseline(rewards: seq<real>, valid: seq<bool>, idx: seq<nat>, loo: bool, i: nat, total: real, d: real,
                    inv: real)
    requires |valid| == |rewards| && InBounds(idx, |rewards|) && Increasing(idx) && i in idx && i < |rewards|
    requires valid[i]
    requires |ValidRewards(rewards, valid, idx, -1)| > 1 && d == Divisor(|ValidRewards(rewards, valid, idx, -1)|, loo)
    requires total == Total(ValidRewards(rewards, valid, idx, -1)) && inv == 1.0 / d
    ensures HasShare(rewards, valid, idx, loo, i, total, inv)
  {
    WithoutOne(rewards, valid, idx, i);
    var used := Total(ValidRewards(rewards, valid, idx, if loo then i else -1));
    BaselineIsMean(rewards, valid, idx, loo, i, used, d);
    DivideByInverse(used, d);
  }

  lemma BaselineIsMean(rewards: seq<real>, valid: seq<bool>, idx: seq<nat>, loo: bool, i: nat, used: real, d: real)
    requires |valid| == |rewards| && InBounds(idx, |rewards|) && i < |rewards|
    requires |ValidRewards(rewards, valid, idx, -1)| > 1 && d == Divisor(|ValidRewards(rewards, valid, idx, -1)|, loo)
    requires used == Total(ValidRewards(rewards, valid, idx, if loo then i else -1))
    ensures Baseline(rewards, valid, idx, loo, i) == used / d
  {}

  lemma DivideByInverse(x: real, d: real)
    requires d > 0.0
    ensures x / d == x * (1.0 / d)
  {}

  /** In exact arithmetic the advantages of the valid samples of a prompt cancel out, with
      and without leave-one-out and whatever the mask. */
  lemma AdvantagesSumToZero(rewards: seq<real>, valid: seq<bool>, idx: seq<nat>, loo: bool)
    requires |valid| == |rewards| && InBounds(idx, |rewards|) && Increasing(idx)
    ensures AdvantageSum(rewards, valid, idx, loo, |idx|) == 0.0
  {
    var all := ValidRewards(rewards, valid, idx, -1);
    if |all| <= 1 {
      LoneAdvantages(rewards, valid, idx, loo, |idx|);
    } else {
      var d := Divisor(|all|, loo);
      var inv := 1.0 / d;
      forall j | 0 <= j < |idx| && valid[idx[j]] ensures HasShare(rewards, valid, idx, loo, idx[j], Total(all), inv) {
        OneBaseline(rewards, valid, idx, loo, idx[j], Total(all), d, inv);
      }
      PrefixAdvantages(rewards, valid, idx, loo, |idx|, Total(all), inv);
      assert idx[..|idx|] == idx;
      Cancels(Total(all), |all| as real, d, inv, loo);
    }
  }

  lemma {:induction false} LoneAdvantages(rewards: seq<real>, valid: seq<bool>, idx: seq<nat>, loo: bool, k: nat)
    requires |valid| == |rewards| && InBounds(idx, |rewards|) && k <= |idx|
    requires |ValidRewards(rewards, valid, idx, -1)| <= 1
    ensures AdvantageSum(rewards, valid, idx, loo, k) == 0.0
  {
    if k > 0 { LoneAdvantages(rewards, valid, idx, loo, k - 1); }
  }

  lemma Cancels(total: real, n: real, d: real, inv: real, loo: bool)
    requires d > 0.0 && inv == 1.0 / d && d == if loo then n - 1.0 else n
    ensures ShareSum(total, n, total, inv, loo) == 0.0
  {
    assert n * total - (if loo then total else 0.0) == d * total;
    assert (d * total) * inv == total * (d * inv);
  }

  // ---------------------------------------------------------------- the variance

  /** Sum of (x - c)^2. */
  function Deviation(x: seq<real>, c: real): real {
    if x == [] then 0.0 else Deviation(x[..|x| - 1], c) + Square(x[|x| - 1] - c)
  }

  /** The same from the sums alone. */
  function FromSums(squares: real, total: real, n: real, c: real): real {
    squares - 2.0 * c * total + n * c * c
  }

  lemma {:induction false} DeviationExpands(x: seq<real>, c: real)
    ensures Deviation(x, c) == FromSums(Total(Squares(x)), Total(x), |x| as real, c)
  {
    if x != [] {
      var front, last := x[..|x| - 1], x[|x| - 1];
      DeviationExpands(front, c);
      assert x == front + [last];
      Accumulate(front, last);
      ExpandOne(Total(Squares(front)), Total(front), |front| as real, last, c);
    }
  }

  lemma ExpandOne(q: real, s: real, n: real, r: real, c: real)
    ensures FromSums(q, s, n, c) + Square(r - c) == FromSums(q + Square(r), s + r, n + 1.0, c)
  {}

  function Mean(x: seq<real>): real
    requires x != []
  {
    Total(x) / |x| as real
  }

  /** The value under the square root is the unbiased sample variance of the rewards used. */
  lemma SpreadIsSampleVariance(x: seq<real>)
    requires |x| >= 2
    ensures Spread(Total(x), Total(Squares(x)), |x| as real) == Deviation(x, Mean(x)) / (|x| as real - 1.0)
  {
    DeviationExpands(x, Mean(x));
    Rescale(Total(Squares(x)), Total(x), |x| as real, Mean(x));
  }

  lemma Rescale(q: real, s: real, n: real, c: real)
    requires n >= 2.0 && c == s / n
    ensures Spread(s, q, n) == FromSums(q, s, n, c) / (n - 1.0)
  {
    var k, dev, a := 1.0 / (n - 1.0), FromSums(q, s, n, c), q / n - c * c;
    DivideByInverse(n, n - 1.0);
    DivideByInverse(dev, n - 1.0);
    TimesCount(q, s, n, c);
    Associate(a, n, k);
  }

  lemma TimesCount(q: real, s: real, n: real, c: real)
    requires n > 0.0 && c == s / n
    ensures (q / n - c * c) * n == FromSums(q, s, n, c)
  {
    assert s == n * c;
    assert (q / n) * n == q;
  }

  lemma Associate(a: real, b: real, c: real)
    ensures a * (b * c) == (a * b) * c
  {}

  predicate AllEqual(x: seq<real>) { forall i, j :: 0 <= i < j < |x| ==> x[i] == x[j] }

  lemma {:induction false} DeviationZero(x: seq<real>, c: real)
    ensures Deviation(x, c) >= 0.0
    ensures Deviation(x, c) == 0.0 <==> forall i :: 0 <= i < |x| ==> x[i] == c
  {
    if x != [] {
      DeviationZero(x[..|x| - 1], c);
      SquareSign(x[|x| - 1] - c);
    }
  }

  lemma SquareSign(d: real)
    ensures Square(d) >= 0.0 && (Square(d) == 0.0 <==> d == 0.0)
  {
    if d > 0.0 {
      PositiveSquare(d);
    } else if d < 0.0 {
      PositiveSquare(-d);
      NegatedSquare(d);
    }
  }

  lemma NegatedSquare(d: real)
    ensures Square(-d) == Square(d)
  {}

  lemma PositiveSquare(a: real)
    requires a > 0.0
    ensures Square(a) > 0.0
  {
    var inverse := 1.0 / a;
    assert Square(a) * inverse == a;
  }

  lemma {:induction false} TotalOfEqual(x: seq<real>, c: real)
    requires forall i :: 0 <= i < |x| ==> x[i] == c
    ensures Total(x) == |x| as real * c
  {
    if x != [] {
      TotalOfEqual(x[..|x| - 1], c);
    }
  }

  /** The variance is never negative and is zero exactly when all rewards used are equal. */
  lemma SpreadZeroIffEqual(x: seq<real>)
    requires |x| >= 2
    ensures Spread(Total(x), Total(Squares(x)), |x| as real) >= 0.0
    ensures Spread(Total(x), Total(Squares(x)), |x| as real) == 0.0 <==> AllEqual(x)
  {
    SpreadIsSampleVariance(x);
    DeviationSign(x);
    QuotientSign(Deviation(x, Mean(x)), |x| as real - 1.0, Spread(Total(x), Total(Squares(x)), |x| as real));
  }

  lemma DeviationSign(x: seq<real>)
    requires x != []
    ensures Deviation(x, Mean(x)) >= 0.0 && (Deviation(x, Mean(x)) == 0.0 <==> AllEqual(x))
  {
    var c := Mean(x);
    DeviationZero(x, c);
    if AllEqual(x) {
      MeanOfEqual(x);
    }
    assert (forall i :: 0 <= i < |x| ==> x[i] == c) ==> AllEqual(x);
  }

  lemma MeanOfEqual(x: seq<real>)
    requires x != [] && AllEqual(x)
    ensures Mean(x) == x[0]
  {
    TotalOfEqual(x, x[0]);
    Undivide(|x| as real, x[0]);
  }

  lemma Undivide(n: real, c: real)
    requires n > 0.0
    ensures (n * c) / n == c
  {}

  lemma QuotientSign(a: real, b: real, q: real)
    requires a >= 0.0 && b > 0.0 && q == a / b
    ensures q >= 0.0 && (q == 0.0 <==> a == 0.0)
  {
    assert a == q * b;
  }

  /** How many rewards the baseline of sample `i` is computed from. */
  lemma {:induction false} UsedCount(rewards: seq<real>, valid: seq<bool>, idx: seq<nat>, i: nat)
    requires |valid| == |rewards| && InBounds(idx, |rewards|) && Increasing(idx) && i < |rewards| && valid[i]
    ensures |ValidRewards(rewards, valid, idx, i)|
         == |ValidRewards(rewards, valid, idx, -1)| - if i in idx then 1 else 0
  {
    if idx != [] {
      var m := |idx| - 1;
      UsedCount(rewards, valid, idx[..m], i);
      LastIsNew(idx, i);
    }
  }

  lemma LastIsNew(idx: seq<nat>, i: nat)
    requires Increasing(idx) && idx != []
    ensures i in idx <==> i in idx[..|idx| - 1] || idx[|idx| - 1] == i
    ensures idx[|idx| - 1] == i ==> i !in idx[..|idx| - 1]
  {
    assert idx == idx[..|idx| - 1] + [idx[|idx| - 1]];
  }

  /** For a valid sample the squared std is zero exactly when all rewards its baseline is
      computed from agree: the group's valid rewards, or those of the other samples. */
  lemma VarianceZeroIffEqual(rewards: seq<real>, valid: seq<bool>, idx: seq<nat>, loo: bool, i: nat)
    requires |valid| == |rewards| && InBounds(idx, |rewards|) && Increasing(idx) && i in idx && i < |rewards|
    requires valid[i]
    ensures var used := ValidRewards(rewards, valid, idx, if loo then i else -1);
            && Variance(rewards, valid, idx, loo, i) >= 0.0
            && (Variance(rewards, valid, idx, loo, i) == 0.0 <==> AllEqual(used))
  {
    var all := ValidRewards(rewards, valid, idx, -1);
    var used := ValidRewards(rewards, valid, idx, if loo then i else -1);
    UsedCount(rewards, valid, idx, i);
    if |all| > 1 && |used| >= 2 {
      SpreadZeroIffEqual(used);
    }
  }

  // ---------------------------------------------------------------- what is written for a sample

  /** Positions of the group's entries that count: the valid ones, without `skip`. */
  function UsedPositions(valid: seq<bool>, idx: seq<nat>, skip: int): (p: seq<nat>)
    requires InBounds(idx, |valid|)
    ensures forall j :: 0 <= j < |p| ==> p[j] < |idx|
    ensures forall k: nat :: k < |idx| ==> (k in p <==> valid[idx[k]] && idx[k] != skip)
  {
    if idx == [] then []
    else
      var m := |idx| - 1;
      UsedPositions(valid, idx[..m], skip) + if valid[idx[m]] && idx[m] != skip then [m] else []
  }

  predicate IncreasingPositions(p: seq<nat>) { forall j, k :: 0 <= j < k < |p| ==> p[j] < p[k] }

  /** The rewards used are those of the group's valid samples without `skip`, once each and in order. */
  lemma {:induction false} UsedExactly(rewards: seq<real>, valid: seq<bool>, idx: seq<nat>, skip: int)
    requires |valid| == |rewards| && InBounds(idx, |rewards|)
    ensures |ValidRewards(rewards, valid, idx, skip)| == |UsedPositions(valid, idx, skip)|
    ensures IncreasingPositions(UsedPositions(valid, idx, skip))
    ensures forall j :: 0 <= j < |UsedPositions(valid, idx, skip)| ==>
              ValidRewards(rewards, valid, idx, skip)[j] == rewards[idx[UsedPositions(valid, idx, skip)[j]]]
  {
    if idx != [] { UsedExactly(rewards, valid, idx[..|idx| - 1], skip); }
  }

  /** The squared distances of the rewards from `c`. */
  function SquaredDistances(x: seq<real>, c: real): (r: seq<real>)
    ensures |r| == |x| && forall j :: 0 <= j < |r| ==> r[j] == Square(x[j] - c)
  {
    seq(|x|, j requires 0 <= j < |x| => Square(x[j] - c))
  }

  lemma {:induction false} DeviationIsTotal(x: seq<real>, c: real)
    ensures Deviation(x, c) == Total(SquaredDistances(x, c))
  {
    if x != [] {
      DeviationIsTotal(x[..|x| - 1], c);
      assert SquaredDistances(x, c)[..|x| - 1] == SquaredDistances(x[..|x| - 1], c);
    }
  }

  function Times(x: real, n: nat): real { x * n as real }

  /** `c` is the mean of `x`. */
  ghost predicate IsMean(x: seq<real>, c: real) { x != [] && Times(c, |x|) == Total(x) }

  /** `v` is the unbiased sample variance of `x` about its mean `c`; a single value has none. */
  ghost predicate IsSampleVariance(x: seq<real>, c: real, v: real)
    requires x != []
  {
    if |x| == 1 then v == 0.0 else Times(v, |x| - 1) == Total(SquaredDistances(x, c))
  }

  /** A valid sample in a group with more than one gets the mean of the rewards used as its
      baseline and their unbiased sample variance as its squared std. */
  lemma SampleGetsMeanAndVariance(rewards: seq<real>, valid: seq<bool>, idx: seq<nat>, loo: bool, i: nat)
    requires |valid| == |rewards| && InBounds(idx, |rewards|) && Increasing(idx) && i in idx && i < |rewards|
    requires valid[i] && |ValidRewards(rewards, valid, idx, -1)| > 1
    ensures var used := ValidRewards(rewards, valid, idx, if loo then i else -1);
            && IsMean(used, Baseline(rewards, valid, idx, loo, i))
            && IsSampleVariance(used, Baseline(rewards, valid, idx, loo, i), Variance(rewards, valid, idx, loo, i))
  {
    var used := ValidRewards(rewards, valid, idx, if loo then i else -1);
    UsedCount(rewards, valid, idx, i);
    var b, v := Baseline(rewards, valid, idx, loo, i), Variance(rewards, valid, idx, loo, i);
    assert b == Total(used) / |used| as real && v == Spread(Total(used), Total(Squares(used)), |used| as real);
    MeanAndVariance(used, b, v);
  }

  lemma MeanAndVariance(used: seq<real>, b: real, v: real)
    requires used != [] && b == Total(used) / |used| as real
    requires v == Spread(Total(used), Total(Squares(used)), |used| as real)
    ensures IsMean(used, b) && IsSampleVariance(used, b, v)
  {
    QuotientTimes(Total(used), |used|, b);
    if |used| >= 2 {
      SpreadIsSampleVariance(used);
      DeviationIsTotal(used, b);
      QuotientTimes(Deviation(used, b), |used| - 1, v);
    }
  }

  lemma QuotientTimes(a: real, n: nat, q: real)
    requires 0 < n && q == a / n as real
    ensures Times(q, n) == a
  {}

  lemma {:induction false} SkippingInvalid(rewards: seq<real>, valid: seq<bool>, idx: seq<nat>, i: nat)
    requires |valid| == |rewards| && InBounds(idx, |rewards|) && i < |rewards| && !valid[i]
    ensures ValidRewards(rewards, valid, idx, i) == ValidRewards(rewards, valid, idx, -1)
  {
    if idx != [] { SkippingInvalid(rewards, valid, idx[..|idx| - 1], i); }
  }

  /** Which samples get the mean of the rewards used: with leave-one-out an invalid one does
      not, since the divisor leaves it out although its reward was never counted, unless the
      rewards used add up to zero. */
  lemma BaselineIsMeanIff(rewards: seq<real>, valid: seq<bool>, idx: seq<nat>, loo: bool, i: nat)
    requires |valid| == |rewards| && InBounds(idx, |rewards|) && Increasing(idx) && i in idx && i < |rewards|
    requires |ValidRewards(rewards, valid, idx, -1)| > 1
    ensures var used := ValidRewards(rewards, valid, idx, if loo then i else -1);
            IsMean(used, Baseline(rewards, valid, idx, loo, i)) <==> valid[i] || !loo || Total(used) == 0.0
  {
    var used := ValidRewards(rewards, valid, idx, if loo then i else -1);
    var b := Baseline(rewards, valid, idx, loo, i);
    if valid[i] {
      SampleGetsMeanAndVariance(rewards, valid, idx, loo, i);
    } else {
      SkippingInvalid(rewards, valid, idx, i);
      QuotientTimes(Total(used), if loo then |used| - 1 else |used|, b);
      OneMoreTime(b, |used| - 1);
    }
  }

  lemma OneMoreTime(b: real, n: nat)
    ensures Times(b, n + 1) == Times(b, n) + b
    ensures Times(b, n) == 0.0 ==> n == 0 || b == 0.0
    ensures b == 0.0 ==> Times(b, n) == 0.0
  {}

  /** A sample of a group with at most one valid sample keeps its own reward as baseline. */
  lemma LoneSampleKeepsReward(rewards: seq<real>, valid: seq<bool>, idx: seq<nat>, loo: bool, i: nat)
    requires |valid| == |rewards| && InBounds(idx, |rewards|) && i < |rewards|
    requires |ValidRewards(rewards, valid, idx, -1)| <= 1
    ensures Baseline(rewards, valid, idx, loo, i) == rewards[i] && Variance(rewards, valid, idx, loo, i) == 0.0
  {}
}
