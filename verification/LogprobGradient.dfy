/** What the gradient that `DistributedLogprob.backward` returns means
    (nemo_rl/distributed/model_utils.py): the ranks' parts laid end to end are the slope of
    the log-probability at the logits. */
module LogprobGradient {
  import opened Lists
  import opened Reals
  import opened VocabParallel
  import opened DistributedLogprobs

  // ---------------------------------------------------------------- the ranks' parts

  /** The gradient of one position on rank `r`: its target is masked unless it is the rank's. */
  function RankGrad(exp: real -> real, log: real -> real, shards: seq<seq<real>>, target: int, g: real, r: nat)
    : seq<real>
    requires NoneEmpty(shards) && r < |shards|
  {
    var start, end := Start(shards, r), Start(shards, r + 1);
    GradRow(Exps(exp, RankLogSoftmax(exp, log, shards, r)), !(start <= target < end), target - start, g)
  }

  function RankGrads(exp: real -> real, log: real -> real, shards: seq<seq<real>>, target: int, g: real, n: nat)
    : (r: seq<seq<real>>)
    requires NoneEmpty(shards) && n <= |shards|
    ensures |r| == n
  {
    if n == 0 then []
    else RankGrads(exp, log, shards, target, g, n - 1) + [RankGrad(exp, log, shards, target, g, n - 1)]
  }

  /** The gradient over the undivided vocabulary. */
  function FullGrad(exp: real -> real, log: real -> real, z: seq<real>, target: int, g: real): seq<real>
    requires z != []
  {
    GradRow(Exps(exp, LogSoftmax(exp, log, z)), false, target, g)
  }

  lemma RankGradAt(exp: real -> real, log: real -> real, shards: seq<seq<real>>, target: int, g: real, r: nat, v: nat,
                   start: nat, lp: seq<real>)
    requires NoneEmpty(shards) && r < |shards| && v < |shards[r]| == |lp| && lp == RankLogSoftmax(exp, log, shards, r)
    requires start == Start(shards, r) && start + |shards[r]| == Start(shards, r + 1)
    ensures |RankGrad(exp, log, shards, target, g, r)| == |shards[r]|
    ensures RankGrad(exp, log, shards, target, g, r)[v] == Entry(start + v == target, exp(lp[v]), g)
  {}

  lemma FullGradAt(exp: real -> real, log: real -> real, z: seq<real>, target: int, g: real, i: nat, lp: seq<real>)
    requires i < |z| == |lp| && lp == LogSoftmax(exp, log, z)
    ensures |FullGrad(exp, log, z, target, g)| == |z|
    ensures FullGrad(exp, log, z, target, g)[i] == Entry(i == target, exp(lp[i]), g)
  {}

  lemma RankGradEntry(exp: real -> real, log: real -> real, shards: seq<seq<real>>, target: int, g: real, r: nat,
                      v: nat, z: seq<real>, start: nat, own: seq<real>, whole: seq<real>, i: nat)
    requires NoneEmpty(shards) && r < |shards| && v < |shards[r]| == |own| && i == start + v < |z| == |whole|
    requires start == Start(shards, r) && start + |shards[r]| == Start(shards, r + 1)
    requires own == RankLogSoftmax(exp, log, shards, r) && whole == LogSoftmax(exp, log, z) && own[v] == whole[i]
    ensures |RankGrad(exp, log, shards, target, g, r)| == |shards[r]| && |FullGrad(exp, log, z, target, g)| == |z|
    ensures RankGrad(exp, log, shards, target, g, r)[v] == FullGrad(exp, log, z, target, g)[i]
  {
    RankGradAt(exp, log, shards, target, g, r, v, start, own);
    FullGradAt(exp, log, z, target, g, i, whole);
  }

  lemma RankGradIsSlice(exp: real -> real, log: real -> real, shards: seq<seq<real>>, target: int, g: real, r: nat,
                        z: seq<real>, start: nat, end: nat, part: seq<real>, full: seq<real>)
    requires NoneEmpty(shards) && r < |shards| && z == Flatten(shards) != []
    requires start == Start(shards, r) && end == Start(shards, r + 1) == start + |shards[r]| <= |z|
    requires part == RankGrad(exp, log, shards, target, g, r) && full == FullGrad(exp, log, z, target, g)
    ensures part == full[start..end]
  {
    var own, whole := RankLogSoftmax(exp, log, shards, r), LogSoftmax(exp, log, z);
    forall v | 0 <= v < |part| ensures part[v] == full[start + v] {
      RankLogSoftmaxIsSlice(exp, log, shards, r, v, z, start, start + v);
      RankGradEntry(exp, log, shards, target, g, r, v, z, start, own, whole, start + v);
    }
    IsSlice(part, full, start, end);
  }

  lemma IsSlice(part: seq<real>, full: seq<real>, start: nat, end: nat)
    requires start + |part| == end <= |full| && forall v :: 0 <= v < |part| ==> part[v] == full[start + v]
    ensures part == full[start..end]
  {}

  lemma {:induction false} RankGradsPrefix(exp: real -> real, log: real -> real, shards: seq<seq<real>>, target: int,
                                           g: real, n: nat, z: seq<real>, full: seq<real>)
    requires NoneEmpty(shards) && n <= |shards| && z == Flatten(shards) != []
    requires full == FullGrad(exp, log, z, target, g)
    ensures Start(shards, n) <= |full|
    ensures Flatten(RankGrads(exp, log, shards, target, g, n)) == full[..Start(shards, n)]
  {
    if n == 0 {
      NoRanks(shards, full);
    } else {
      RankGradsPrefix(exp, log, shards, target, g, n - 1, z, full);
      NextRankGrad(exp, log, shards, target, g, n - 1, z, full, RankGrads(exp, log, shards, target, g, n - 1),
                   Start(shards, n - 1), Start(shards, n));
    }
  }

  lemma NoRanks(shards: seq<seq<real>>, full: seq<real>)
    ensures Start(shards, 0) == 0 && full[..0] == []
  {
    assert shards[..0] == [];
  }

  lemma NextRankGrad(exp: real -> real, log: real -> real, shards: seq<seq<real>>, target: int, g: real, r: nat,
                     z: seq<real>, full: seq<real>, parts: seq<seq<real>>, start: nat, end: nat)
    requires NoneEmpty(shards) && r < |shards| && z == Flatten(shards) != []
    requires full == FullGrad(exp, log, z, target, g) && |full| == |z| && start <= |full|
    requires start == Start(shards, r) && end == Start(shards, r + 1) && Flatten(parts) == full[..start]
    ensures end <= |full| && Flatten(parts + [RankGrad(exp, log, shards, target, g, r)]) == full[..end]
  {
    StartStep(shards, r);
    var part := RankGrad(exp, log, shards, target, g, r);
    RankGradIsSlice(exp, log, shards, target, g, r, z, start, end, part, full);
    NextPart(parts, part, full, start, end);
  }

  lemma NextPart(parts: seq<seq<real>>, part: seq<real>, full: seq<real>, start: nat, end: nat)
    requires start <= end <= |full| && Flatten(parts) == full[..start] && part == full[start..end]
    ensures Flatten(parts + [part]) == full[..end]
  {
    FlattenSnoc(parts, part);
    assert full[..end] == full[..start] + full[start..end];
  }

  /** Laid end to end, the ranks' gradients are the gradient over the undivided vocabulary. */
  lemma RankGradsAreFullGrad(exp: real -> real, log: real -> real, shards: seq<seq<real>>, target: int, g: real)
    requires NoneEmpty(shards)
    ensures Flatten(shards) != []
    ensures Flatten(RankGrads(exp, log, shards, target, g, |shards|)) == FullGrad(exp, log, Flatten(shards), target, g)
  {
    GlobalMaxIsMax(shards);
    var full := FullGrad(exp, log, Flatten(shards), target, g);
    RankGradsPrefix(exp, log, shards, target, g, |shards|, Flatten(shards), full);
    assert full[..|full|] == full;
    assert shards[..|shards|] == shards;
  }

  // ---------------------------------------------------------------- the log-sum-exp lies above its tangent

  function Minus(x: seq<real>, y: seq<real>): (r: seq<real>)
    requires |x| == |y|
    ensures |r| == |x| && forall i :: 0 <= i < |r| ==> r[i] == x[i] - y[i]
  {
    seq(|x|, i requires 0 <= i < |x| => x[i] - y[i])
  }

  function Scaled(p: real, x: real): real { p * x }

  lemma ScaledGrows(p: real, x: real, y: real)
    requires p >= 0.0 && x <= y
    ensures Scaled(p, x) <= Scaled(p, y)
  {
    assert p * (y - x) >= 0.0;
  }

  /** One term: exp(y - (l + c)) against the probability exp(x - l). */
  lemma TermAboveTangent(exp: real -> real, log: real -> real, x: real, y: real, l: real, c: real)
    requires ExpLog(exp, log) && NaturalExp(exp)
    ensures exp(y - (l + c)) >= Scaled(exp(x - l), 1.0 + (y - x) - c)
  {
    var d := (y - x) - c;
    assert ExpAdds(exp, x - l, d);
    assert (x - l) + d == y - (l + c);
    assert AboveTangent(exp, d);
    ScaledGrows(exp(x - l), 1.0 + d, exp(d));
  }

  lemma SplitTerm(p: real, d: real, c: real)
    ensures Scaled(p, 1.0 + d - c) == p - Scaled(p, c) + Scaled(p, d)
  {}

  /** p is exp(x - l), entry by entry. */
  ghost predicate AreExps(exp: real -> real, p: seq<real>, x: seq<real>, l: real) {
    |p| == |x| && forall v :: 0 <= v < |p| ==> p[v] == exp(x[v] - l)
  }

  ghost predicate SumAbove(exp: real -> real, x: seq<real>, y: seq<real>, p: seq<real>, a: real, c: real) {
    && |x| == |y| == |p|
    && ExpSum(exp, y, a) >= Total(p) - Scaled(Total(p), c) + Dot(p, Minus(y, x))
  }

  lemma {:induction false} SumAboveTangent(exp: real -> real, log: real -> real, x: seq<real>, y: seq<real>, l: real,
                                           c: real, p: seq<real>)
    requires ExpLog(exp, log) && NaturalExp(exp) && |x| == |y| && AreExps(exp, p, x, l)
    ensures SumAbove(exp, x, y, p, l + c, c)
  {
    if x == [] {
      NoTerms(exp, x, y, p, l + c, c);
    } else {
      var m := |x| - 1;
      SumAboveTangent(exp, log, x[..m], y[..m], l, c, p[..m]);
      TermAboveTangent(exp, log, x[m], y[m], l, c);
      OneMoreTerm(exp, x, y, p, l + c, c, m);
    }
  }

  lemma NoTerms(exp: real -> real, x: seq<real>, y: seq<real>, p: seq<real>, a: real, c: real)
    requires x == [] && y == [] && p == []
    ensures SumAbove(exp, x, y, p, a, c)
  {}

  lemma OneMoreTerm(exp: real -> real, x: seq<real>, y: seq<real>, p: seq<real>, a: real, c: real, m: nat)
    requires |x| == |y| == |p| == m + 1 && SumAbove(exp, x[..m], y[..m], p[..m], a, c)
    requires exp(y[m] - a) >= Scaled(p[m], 1.0 + (y[m] - x[m]) - c)
    ensures SumAbove(exp, x, y, p, a, c)
  {
    var d := Minus(y, x);
    assert d[..m] == Minus(y[..m], x[..m]);
    LastDot(p, d, m);
    LastTotal(p, m);
    LastExp(exp, y, a, m);
    NextTerm(ExpSum(exp, y[..m], a), exp(y[m] - a), Total(p[..m]), p[m], c, d[m], Dot(p[..m], d[..m]));
  }

  lemma LastDot(p: seq<real>, d: seq<real>, m: nat)
    requires |p| == |d| == m + 1
    ensures Dot(p, d) == Dot(p[..m], d[..m]) + Scaled(p[m], d[m])
  {}

  lemma LastTotal(p: seq<real>, m: nat)
    requires |p| == m + 1
    ensures Total(p) == Total(p[..m]) + p[m]
  {}

  lemma LastExp(exp: real -> real, y: seq<real>, a: real, m: nat)
    requires |y| == m + 1
    ensures ExpSum(exp, y, a) == ExpSum(exp, y[..m], a) + exp(y[m] - a)
  {}

  lemma NextTerm(s: real, e: real, t: real, p: real, c: real, d: real, dot: real)
    requires e >= Scaled(p, 1.0 + d - c) && s >= t - Scaled(t, c) + dot
    ensures s + e >= (t + p) - Scaled(t + p, c) + (dot + Scaled(p, d))
  {
    AddTerm(t, p, c, d);
  }

  lemma AddTerm(t: real, p: real, c: real, d: real)
    ensures Scaled(p, 1.0 + d - c) + (t - Scaled(t, c)) == (t + p) - Scaled(t + p, c) + Scaled(p, d)
  {
    SplitTerm(p, d, c);
    assert (t + p) * c == t * c + p * c;
  }

  lemma ExpAscends(exp: real -> real, log: real -> real, a: real, b: real)
    requires ExpLog(exp, log) && NaturalExp(exp) && exp(a) <= exp(b)
    ensures a <= b
  {
    if b < a { LargerExp(exp, log, b, a - b, a); }
  }

  lemma LargerExp(exp: real -> real, log: real -> real, b: real, d: real, a: real)
    requires ExpLog(exp, log) && NaturalExp(exp) && d > 0.0 && a == b + d
    ensures exp(b) < exp(a)
  {
    assert ExpAdds(exp, b, d) && AboveTangent(exp, d);
    Exceeds(exp(b), exp(d));
  }

  lemma Exceeds(t: real, u: real)
    requires t > 0.0 && u > 1.0
    ensures t * u > t
  {
    assert t * (u - 1.0) > 0.0;
  }

  function LogSumExp(exp: real -> real, log: real -> real, z: seq<real>): real { log(ExpSum(exp, z, 0.0)) }

  /** The probabilities are exp(z - l) for the log-sum-exp l, and they add up to one. */
  lemma ProbabilitiesFrom(exp: real -> real, log: real -> real, z: seq<real>, p: seq<real>)
    requires ExpLog(exp, log) && z != [] && p == Exps(exp, LogSoftmax(exp, log, z))
    ensures AreExps(exp, p, z, LogSumExp(exp, log, z)) && Total(p) == 1.0
  {
    ProbabilitiesSumToOne(exp, log, z);
    forall v | 0 <= v < |z| ensures p[v] == exp(z[v] - LogSumExp(exp, log, z)) {
      StableFormIsLogSoftmax(exp, log, z, v);
    }
  }

  /** Moving the logits raises the log-sum-exp at least by what the probabilities predict. */
  lemma LogSumExpAboveTangent(exp: real -> real, log: real -> real, z: seq<real>, y: seq<real>, p: seq<real>)
    requires ExpLog(exp, log) && NaturalExp(exp) && z != [] && |y| == |z| == |p|
    requires p == Exps(exp, LogSoftmax(exp, log, z))
    ensures LogSumExp(exp, log, y) >= LogSumExp(exp, log, z) + Dot(p, Minus(y, z))
  {
    var l, c := LogSumExp(exp, log, z), Dot(p, Minus(y, z));
    ProbabilitiesFrom(exp, log, z, p);
    SumAboveTangent(exp, log, z, y, l, c, p);
    UnitMassAbove(exp, z, y, p, l + c, c);
    MassMeansShift(exp, log, y, l + c);
  }

  lemma UnitMassAbove(exp: real -> real, x: seq<real>, y: seq<real>, p: seq<real>, a: real, c: real)
    requires SumAbove(exp, x, y, p, a, c) && Total(p) == 1.0 && Dot(p, Minus(y, x)) == c
    ensures ExpSum(exp, y, a) >= 1.0
  {}

  lemma MassMeansShift(exp: real -> real, log: real -> real, y: seq<real>, a: real)
    requires ExpLog(exp, log) && NaturalExp(exp) && y != [] && ExpSum(exp, y, a) >= 1.0
    ensures a <= LogSumExp(exp, log, y)
  {
    ExpSumShift(exp, log, y, a, 0.0, a);
    ExpSumPositive(exp, log, y, 0.0);
    assert LogInverts(exp, log, ExpSum(exp, y, 0.0));
    assert ExpAdds(exp, a, 0.0);
    AtLeast(exp(a), ExpSum(exp, y, a));
    ExpAscends(exp, log, a, LogSumExp(exp, log, y));
  }

  lemma AtLeast(t: real, u: real)
    requires t > 0.0 && u >= 1.0
    ensures u * t >= t
  {
    assert (u - 1.0) * t >= 0.0;
  }

  // ---------------------------------------------------------------- the gradient is the slope

  lemma {:induction false} DotOfGrad(p: seq<real>, t: nat, g: real, d: seq<real>)
    requires |p| == |d|
    ensures Dot(GradRow(p, false, t, g), d) == Scaled(g, (if t < |d| then d[t] else 0.0) - Dot(p, d))
  {
    if p != [] {
      var m, row := |p| - 1, GradRow(p, false, t, g);
      DotOfGrad(p[..m], t, g, d[..m]);
      assert row[..m] == GradRow(p[..m], false, t, g);
      LastDot(row, d, m);
      LastDot(p, d, m);
      EntryTimes(m == t, p[m], g, d[m]);
      AddDots(g, if t < m then d[t] else 0.0, Dot(p[..m], d[..m]), if m == t then d[m] else 0.0, Scaled(p[m], d[m]));
    }
  }

  lemma EntryTimes(chosen: bool, p: real, g: real, d: real)
    ensures Scaled(Entry(chosen, p, g), d) == Scaled(g, (if chosen then d else 0.0) - Scaled(p, d))
  {}

  lemma AddDots(g: real, a: real, x: real, b: real, y: real)
    ensures Scaled(g, a - x) + Scaled(g, b - y) == Scaled(g, (a + b) - (x + y))
  {}

  /** The log-probability, times an upstream gradient, never lies above the plane through its
      value with the slope that backward returns (below it, for a negative one). The
      log-probability is smooth, so no other slope does this. */
  lemma GradientIsSlope(exp: real -> real, log: real -> real, z: seq<real>, y: seq<real>, target: nat, g: real)
    requires ExpLog(exp, log) && NaturalExp(exp) && target < |z| == |y|
    ensures var rise := Scaled(g, Logprob(exp, log, y, target)) - Scaled(g, Logprob(exp, log, z, target));
            var plane := Dot(FullGrad(exp, log, z, target, g), Minus(y, z));
            (g >= 0.0 ==> rise <= plane) && (g <= 0.0 ==> rise >= plane)
  {
    var p, d := Exps(exp, LogSoftmax(exp, log, z)), Minus(y, z);
    LogSumExpAboveTangent(exp, log, z, y, p);
    StableFormIsLogSoftmax(exp, log, z, target);
    StableFormIsLogSoftmax(exp, log, y, target);
    DotOfGrad(p, target, g, d);
    ScaleBoth(g, Logprob(exp, log, y, target), Logprob(exp, log, z, target), d[target] - Dot(p, d));
  }

  lemma ScaleBoth(g: real, x: real, y: real, d: real)
    requires x - y <= d
    ensures g >= 0.0 ==> Scaled(g, x) - Scaled(g, y) <= Scaled(g, d)
    ensures g <= 0.0 ==> Scaled(g, x) - Scaled(g, y) >= Scaled(g, d)
  {
    assert Scaled(g, x) - Scaled(g, y) == Scaled(g, x - y);
    assert g >= 0.0 ==> g * (d - (x - y)) >= 0.0;
    assert g <= 0.0 ==> g * (d - (x - y)) <= 0.0;
  }

  /** The same for a vocabulary split among ranks: what they reduce forwards and what each
      returns backwards. */
  lemma ShardedGradientIsSlope(exp: real -> real, log: real -> real, shards: seq<seq<real>>, moved: seq<seq<real>>,
                               target: nat, g: real)
    requires ExpLog(exp, log) && NaturalExp(exp) && NoneEmpty(shards) && NoneEmpty(moved)
    requires target < |Flatten(shards)| == |Flatten(moved)|
    ensures var before := Reduced(exp, log, shards, target, |shards|);
            var after := Reduced(exp, log, moved, target, |moved|);
            var slope := Flatten(RankGrads(exp, log, shards, target, g, |shards|));
            && |slope| == |Flatten(shards)|
            && var plane := Dot(slope, Minus(Flatten(moved), Flatten(shards)));
               && (g >= 0.0 ==> Scaled(g, after) - Scaled(g, before) <= plane)
               && (g <= 0.0 ==> Scaled(g, after) - Scaled(g, before) >= plane)
  {
    MaskedGathersSum(exp, log, shards, target);
    MaskedGathersSum(exp, log, moved, target);
    RankGradsAreFullGrad(exp, log, shards, target, g);
    GradientIsSlope(exp, log, Flatten(shards), Flatten(moved), target, g);
  }
}
