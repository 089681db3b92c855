/** Log-probabilities over a vocabulary split among ranks, and their gradient
    (`DistributedLogprob`, `ChunkedDistributedLogprob`,
    nemo_rl/distributed/model_utils.py). exp and log are parameters. */
module VocabParallel {
  import opened Lists
  import opened Reals

  // ---------------------------------------------------------------- one position

  /** all_reduce(MAX) of every rank's own maximum. */
  function GlobalMax(shards: seq<seq<real>>): real
    requires NoneEmpty(shards)
  {
    if |shards| == 1 then Amax(shards[0])
    else MaxReal(GlobalMax(shards[..|shards| - 1]), Amax(shards[|shards| - 1]))
  }

  /** Sum of exp(z - m). */
  function ExpSum(exp: real -> real, z: seq<real>, m: real): real {
    if z == [] then 0.0 else ExpSum(exp, z[..|z| - 1], m) + exp(z[|z| - 1] - m)
  }

  /** all_reduce(SUM) of every rank's own sum. */
  function GlobalExpSum(exp: real -> real, shards: seq<seq<real>>, m: real): real {
    if shards == [] then 0.0
    else GlobalExpSum(exp, shards[..|shards| - 1], m) + ExpSum(exp, shards[|shards| - 1], m)
  }

  /** What rank `r` computes for its part of the vocabulary. */
  function RankLogSoftmax(exp: real -> real, log: real -> real, shards: seq<seq<real>>, r: nat): (lp: seq<real>)
    requires NoneEmpty(shards) && r < |shards|
    ensures |lp| == |shards[r]|
  {
    var m := GlobalMax(shards);
    var total := GlobalExpSum(exp, shards, m);
    seq(|shards[r]|, v requires 0 <= v < |shards[r]| => shards[r][v] - m - log(total))
  }

  /** The log-softmax of the undivided logits. */
  function LogSoftmax(exp: real -> real, log: real -> real, z: seq<real>): (lp: seq<real>)
    requires z != []
    ensures |lp| == |z|
  {
    var m := Amax(z);
    var total := ExpSum(exp, z, m);
    seq(|z|, v requires 0 <= v < |z| => z[v] - m - log(total))
  }

  /** First vocabulary index of rank `r`. */
  function Start(shards: seq<seq<real>>, r: nat): nat
    requires r <= |shards|
  {
    |Flatten(shards[..r])|
  }

  lemma StartStep(shards: seq<seq<real>>, r: nat)
    requires r < |shards|
    ensures Start(shards, r) + |shards[r]| == Start(shards, r + 1) <= |Flatten(shards)|
  {
    BlockAtOffset(shards, r);
  }

  lemma {:induction false} GlobalMaxIsMax(shards: seq<seq<real>>)
    requires NoneEmpty(shards)
    ensures Flatten(shards) != [] && GlobalMax(shards) == Amax(Flatten(shards))
  {
    var k := |shards| - 1;
    if k == 0 {
      assert shards[..0] == [] && Flatten(shards) == shards[0];
    } else {
      GlobalMaxIsMax(shards[..k]);
      AmaxAppend(Flatten(shards[..k]), shards[k]);
    }
  }

  lemma {:induction false} ExpSumAppend(exp: real -> real, x: seq<real>, y: seq<real>, m: real)
    ensures ExpSum(exp, x + y, m) == ExpSum(exp, x, m) + ExpSum(exp, y, m)
  {
    if y == [] {
      assert x + y == x;
    } else {
      assert (x + y)[..|x + y| - 1] == x + y[..|y| - 1];
      ExpSumAppend(exp, x, y[..|y| - 1], m);
    }
  }

  lemma {:induction false} GlobalExpSumIsSum(exp: real -> real, shards: seq<seq<real>>, m: real)
    ensures GlobalExpSum(exp, shards, m) == ExpSum(exp, Flatten(shards), m)
  {
    if shards != [] {
      var k := |shards| - 1;
      GlobalExpSumIsSum(exp, shards[..k], m);
      ExpSumAppend(exp, Flatten(shards[..k]), shards[k], m);
    }
  }

  lemma EntryOfFlatten(shards: seq<seq<real>>, r: nat, v: nat, z: seq<real>, start: nat)
    requires r < |shards| && v < |shards[r]| && z == Flatten(shards) && start == Start(shards, r)
    ensures start + v < |z| && z[start + v] == shards[r][v]
  {
    BlockAtOffset(shards, r);
    assert Slice(z, start, Start(shards, r + 1))[v] == shards[r][v];
  }

  lemma SameSoftmax(exp: real -> real, log: real -> real, shards: seq<seq<real>>, z: seq<real>, r: nat, v: nat, i: nat)
    requires NoneEmpty(shards) && r < |shards| && v < |shards[r]| && z == Flatten(shards) && i < |z|
    requires z[i] == shards[r][v]
    ensures RankLogSoftmax(exp, log, shards, r)[v] == LogSoftmax(exp, log, z)[i]
  {
    SameSums(exp, shards, z);
    SameEntry(exp, log, shards, z, r, v, i);
  }

  lemma SameEntry(exp: real -> real, log: real -> real, shards: seq<seq<real>>, z: seq<real>, r: nat, v: nat, i: nat)
    requires NoneEmpty(shards) && r < |shards| && v < |shards[r]| && i < |z| && z[i] == shards[r][v]
    requires AgreeOnSums(exp, shards, z)
    ensures RankLogSoftmax(exp, log, shards, r)[v] == LogSoftmax(exp, log, z)[i]
  {}

  /** The maximum and the normaliser of the ranks are those of the undivided logits. */
  ghost predicate AgreeOnSums(exp: real -> real, shards: seq<seq<real>>, z: seq<real>)
    requires NoneEmpty(shards)
  {
    z != [] && GlobalMax(shards) == Amax(z) && GlobalExpSum(exp, shards, Amax(z)) == ExpSum(exp, z, Amax(z))
  }

  /** Every rank holds its slice of the full log-softmax. */
  lemma RankLogSoftmaxIsSlice(exp: real -> real, log: real -> real, shards: seq<seq<real>>, r: nat, v: nat,
                              z: seq<real>, start: nat, i: nat)
    requires NoneEmpty(shards) && r < |shards| && v < |shards[r]| && z == Flatten(shards)
    requires start == Start(shards, r) && i == start + v
    ensures i < |z| && RankLogSoftmax(exp, log, shards, r)[v] == LogSoftmax(exp, log, z)[i]
  {
    EntryOfFlatten(shards, r, v, z, start);
    SameSoftmax(exp, log, shards, z, r, v, i);
  }

  lemma SameSums(exp: real -> real, shards: seq<seq<real>>, z: seq<real>)
    requires NoneEmpty(shards) && z == Flatten(shards)
    ensures AgreeOnSums(exp, shards, z)
  {
    GlobalMaxIsMax(shards);
    GlobalExpSumIsSum(exp, shards, Amax(z));
  }

  /** What rank `r` contributes: its entry for the target, or 0 when the target is not its. */
  function Contribution(exp: real -> real, log: real -> real, shards: seq<seq<real>>, r: nat, target: int): real
    requires NoneEmpty(shards) && r < |shards|
  {
    StartStep(shards, r);
    if Start(shards, r) <= target < Start(shards, r + 1)
    then RankLogSoftmax(exp, log, shards, r)[target - Start(shards, r)] else 0.0
  }

  /** all_reduce(SUM) of the contributions of the first `k` ranks. */
  function Reduced(exp: real -> real, log: real -> real, shards: seq<seq<real>>, target: int, k: nat): real
    requires NoneEmpty(shards) && k <= |shards|
  {
    if k == 0 then 0.0
    else Reduced(exp, log, shards, target, k - 1) + Contribution(exp, log, shards, k - 1, target)
  }

  lemma ContributionIsEntry(exp: real -> real, log: real -> real, shards: seq<seq<real>>, target: int, r: nat)
    requires NoneEmpty(shards) && r < |shards|
    ensures Start(shards, r) + |shards[r]| == Start(shards, r + 1) <= |Flatten(shards)|
    ensures Contribution(exp, log, shards, r, target)
         == if Start(shards, r) <= target < Start(shards, r + 1) then LogSoftmax(exp, log, Flatten(shards))[target]
            else 0.0
  {
    StartStep(shards, r);
    ContributionAt(exp, log, shards, r, target, Flatten(shards), Start(shards, r), Start(shards, r + 1));
  }

  lemma ContributionAt(exp: real -> real, log: real -> real, shards: seq<seq<real>>, r: nat, target: int,
                       z: seq<real>, start: nat, end: nat)
    requires NoneEmpty(shards) && r < |shards| && z == Flatten(shards)
    requires start == Start(shards, r) && end == Start(shards, r + 1) == start + |shards[r]| <= |z|
    ensures Contribution(exp, log, shards, r, target)
         == if start <= target < end then LogSoftmax(exp, log, z)[target] else 0.0
  {
    if start <= target < end {
      OwnIsEntry(exp, log, shards, r, target, target - start, z, start);
    } else {
      NoContribution(exp, log, shards, r, target, start, end);
    }
  }

  lemma OwnIsEntry(exp: real -> real, log: real -> real, shards: seq<seq<real>>, r: nat, target: nat, v: nat,
                   z: seq<real>, start: nat)
    requires NoneEmpty(shards) && r < |shards| && v < |shards[r]| && z == Flatten(shards)
    requires start == Start(shards, r) && Start(shards, r + 1) == start + |shards[r]| && target == start + v
    ensures target < |z| && Contribution(exp, log, shards, r, target) == LogSoftmax(exp, log, z)[target]
  {
    OwnContribution(exp, log, shards, r, target, v, start);
    RankLogSoftmaxIsSlice(exp, log, shards, r, v, z, start, target);
  }

  lemma NoContribution(exp: real -> real, log: real -> real, shards: seq<seq<real>>, r: nat, target: int,
                       start: nat, end: nat)
    requires NoneEmpty(shards) && r < |shards| && start == Start(shards, r) && end == Start(shards, r + 1)
    requires !(start <= target < end)
    ensures Contribution(exp, log, shards, r, target) == 0.0
  {}

  lemma OwnContribution(exp: real -> real, log: real -> real, shards: seq<seq<real>>, r: nat, target: nat, v: nat,
                        start: nat)
    requires NoneEmpty(shards) && r < |shards| && v < |shards[r]|
    requires start == Start(shards, r) && Start(shards, r + 1) == start + |shards[r]| && target == start + v
    ensures Contribution(exp, log, shards, r, target) == RankLogSoftmax(exp, log, shards, r)[v]
  {}

  lemma {:induction false} ReducedPrefix(exp: real -> real, log: real -> real, shards: seq<seq<real>>, target: int,
                                         k: nat)
    requires NoneEmpty(shards) && k <= |shards|
    ensures Start(shards, k) <= |Flatten(shards)|
    ensures Reduced(exp, log, shards, target, k)
         == if 0 <= target < Start(shards, k) then LogSoftmax(exp, log, Flatten(shards))[target] else 0.0
  {
    if k > 0 {
      ReducedPrefix(exp, log, shards, target, k - 1);
      ContributionIsEntry(exp, log, shards, target, k - 1);
    }
  }

  /** The value that masking, local gathering and summing over the ranks must produce. */
  function Logprob(exp: real -> real, log: real -> real, z: seq<real>, target: int): real
    requires z != []
  {
    if 0 <= target < |z| then LogSoftmax(exp, log, z)[target] else 0.0
  }

  /** When the ranks' intervals partition the vocabulary, the masked gathers sum to the
      log-softmax of the full vocabulary at the target. */
  lemma MaskedGathersSum(exp: real -> real, log: real -> real, shards: seq<seq<real>>, target: int)
    requires NoneEmpty(shards)
    ensures Flatten(shards) != []
    ensures Reduced(exp, log, shards, target, |shards|) == Logprob(exp, log, Flatten(shards), target)
  {
    GlobalMaxIsMax(shards);
    ReducedPrefix(exp, log, shards, target, |shards|);
    assert shards[..|shards|] == shards;
  }

  // ---------------------------------------------------------------- what the numbers mean

  lemma {:induction false} ExpSumPositive(exp: real -> real, log: real -> real, z: seq<real>, m: real)
    requires ExpLog(exp, log)
    ensures ExpSum(exp, z, m) >= 0.0 && (z != [] ==> ExpSum(exp, z, m) > 0.0)
  {
    if z != [] {
      ExpSumPositive(exp, log, z[..|z| - 1], m);
      assert ExpAdds(exp, z[|z| - 1] - m, 0.0);
    }
  }

  lemma {:induction false} ExpSumShift(exp: real -> real, log: real -> real, z: seq<real>, a: real, b: real, d: real)
    requires ExpLog(exp, log) && a == b + d
    ensures ExpSum(exp, z, a) * exp(d) == ExpSum(exp, z, b)
  {
    if z != [] {
      var front, x := z[..|z| - 1], z[|z| - 1];
      ExpSumShift(exp, log, front, a, b, d);
      assert ExpAdds(exp, x - a, d);
      assert (x - a) + d == x - b;
      Distribute(ExpSum(exp, front, a), exp(x - a), exp(d));
    }
  }

  lemma Distribute(x: real, y: real, z: real)
    ensures (x + y) * z == x * z + y * z
  {}

  lemma LogOfExpSum(exp: real -> real, log: real -> real, z: seq<real>, m: real)
    requires ExpLog(exp, log) && z != []
    ensures log(ExpSum(exp, z, 0.0)) == log(ExpSum(exp, z, m)) + m
  {
    ExpSumPositive(exp, log, z, m);
    ExpSumShift(exp, log, z, m, 0.0, m);
    LogOfScaled(exp, log, ExpSum(exp, z, m), m, ExpSum(exp, z, 0.0));
  }

  /** Subtracting the maximum changes nothing: the result is z - log(sum(exp(z))). */
  lemma StableFormIsLogSoftmax(exp: real -> real, log: real -> real, z: seq<real>, v: nat)
    requires ExpLog(exp, log) && v < |z|
    ensures LogSoftmax(exp, log, z)[v] == z[v] - log(ExpSum(exp, z, 0.0))
  {
    LogOfExpSum(exp, log, z, Amax(z));
  }

  lemma LogOfScaled(exp: real -> real, log: real -> real, t: real, m: real, scaled: real)
    requires ExpLog(exp, log) && t > 0.0 && t * exp(m) == scaled
    ensures log(scaled) == log(t) + m
  {
    assert LogInverts(exp, log, t);
    assert ExpAdds(exp, log(t), m);
    SameFactor(exp(log(t)), t, exp(m));
    assert exp(log(t) + m) == scaled;
    assert LogInverts(exp, log, log(t) + m);
  }

  lemma SameFactor(a: real, b: real, c: real)
    requires a == b
    ensures a * c == b * c
  {}

  function Exps(exp: real -> real, lp: seq<real>): (p: seq<real>)
    ensures |p| == |lp| && forall v :: 0 <= v < |p| ==> p[v] == exp(lp[v])
  {
    seq(|lp|, v requires 0 <= v < |lp| => exp(lp[v]))
  }

  lemma {:induction false} ExpsOfShifted(exp: real -> real, z: seq<real>, c: real, lp: seq<real>)
    requires |lp| == |z| && forall v :: 0 <= v < |z| ==> lp[v] == z[v] - c
    ensures Total(Exps(exp, lp)) == ExpSum(exp, z, c)
  {
    if z != [] {
      var k := |z| - 1;
      ExpsOfShifted(exp, z[..k], c, lp[..k]);
      assert Exps(exp, lp)[..k] == Exps(exp, lp[..k]);
    }
  }

  lemma NormalisedMass(exp: real -> real, log: real -> real, z: seq<real>, m: real)
    requires ExpLog(exp, log) && z != []
    ensures ExpSum(exp, z, m + log(ExpSum(exp, z, m))) == 1.0
  {
    var total := ExpSum(exp, z, m);
    ExpSumPositive(exp, log, z, m);
    ExpSumShift(exp, log, z, m + log(total), m, log(total));
    assert LogInverts(exp, log, total);
    UnitFactor(ExpSum(exp, z, m + log(total)), exp(log(total)), total);
  }

  /** The probabilities over the whole vocabulary sum to one. */
  lemma ProbabilitiesSumToOne(exp: real -> real, log: real -> real, z: seq<real>)
    requires ExpLog(exp, log) && z != []
    ensures Total(Exps(exp, LogSoftmax(exp, log, z))) == 1.0
  {
    var m := Amax(z);
    ExpsOfShifted(exp, z, m + log(ExpSum(exp, z, m)), LogSoftmax(exp, log, z));
    NormalisedMass(exp, log, z, m);
  }

  lemma UnitFactor(x: real, u: real, t: real)
    requires x * u == t && u == t && t > 0.0
    ensures x == 1.0
  {
    assert (x - 1.0) * t == 0.0;
  }
}
