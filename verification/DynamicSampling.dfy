/** Dynamic sampling and its cache across the batches of a training step (`dynamic_sampling`
    and the loop that calls it, nemo_rl/algorithms/grpo.py). */
module DynamicSampling {
  import opened Lists

  /** A row of the batch with its reward and the std of its prompt group. */
  datatype Sample<R> = Sample(content: R, reward: real, std: real)

  function Rewards<R>(rows: seq<Sample<R>>): (r: seq<real>)
    ensures |r| == |rows| && forall i :: 0 <= i < |r| ==> r[i] == rows[i].reward
  {
    seq(|rows|, i requires 0 <= i < |rows| => rows[i].reward)
  }

  /** `totals` is the column `total_reward`: the rewards of whole batches, kept or not. */
  datatype Cache<R> = Nothing | Holding(rows: seq<Sample<R>>, totals: seq<real>)

  function CacheRows<R>(cache: Cache<R>): seq<Sample<R>> {
    if cache.Holding? then cache.rows else []
  }

  function CacheTotals<R>(cache: Cache<R>): seq<real> {
    if cache.Holding? then cache.totals else []
  }

  predicate CacheOk<R>(cache: Cache<R>) { |CacheRows(cache)| <= |CacheTotals(cache)| }

  /** Rows whose std is not zero, in order. */
  function Kept<R>(batch: seq<Sample<R>>): (kept: seq<Sample<R>>)
    ensures |kept| <= |batch|
  {
    if batch == [] then []
    else Kept(batch[..|batch| - 1]) + if batch[|batch| - 1].std != 0.0 then [batch[|batch| - 1]] else []
  }

  datatype Verdict<R> =
    | LimitNotPositive                                     // AssertionError on dynamic_sampling_max_gen_batches
    | TooManyBatches                                       // ValueError
    | Incomplete(cache: Cache<R>)
    | Complete(rows: seq<Sample<R>>, totals: seq<real>, cache: Cache<R>)

  /** The cache after a batch: the kept rows are appended, and with them all rewards of the
      batch; a batch that keeps nothing leaves the cache alone. */
  ghost predicate Extended<R>(cache: Cache<R>, batch: seq<Sample<R>>, cache': Cache<R>) {
    && CacheRows(cache') == CacheRows(cache) + Kept(batch) && CacheOk(cache')
    && CacheTotals(cache') == CacheTotals(cache) + if Kept(batch) == [] then [] else Rewards(batch)
  }

  /** Filters the batch and, if it keeps anything, adds it to the cache and continues with that. */
  method Store<R>(batch: seq<Sample<R>>, cache: Cache<R>)
    returns (cache': Cache<R>, filtered: seq<Sample<R>>, totals: seq<real>)
    requires CacheOk(cache)
    ensures Extended(cache, batch, cache')
    ensures filtered == if Kept(batch) == [] then [] else CacheRows(cache')
    ensures totals == if Kept(batch) == [] then Rewards(batch) else CacheTotals(cache')
  {
    cache', filtered, totals := cache, Kept(batch), Rewards(batch);
    if |filtered| > 0 {
      cache' := Holding(CacheRows(cache) + filtered, CacheTotals(cache) + totals);
      filtered, totals := cache'.rows, cache'.totals;
    }
  }

  /** One call, with `genBatches` generation batches used so far in this step. The size
      compared is that of the extended cache, or 0 for a batch that keeps nothing. */
  method FilterBatch<R>(batch: seq<Sample<R>>, cache: Cache<R>, genBatches: nat, required: nat, maxBatches: int)
    returns (v: Verdict<R>)
    requires CacheOk(cache)
    ensures var kept, pool := Kept(batch), CacheRows(cache) + Kept(batch);
            var size := if kept == [] then 0 else |pool|;
            if size >= required then
              && v.Complete? && Extended(cache, batch, v.cache)
              && v.rows == (if kept == [] then [] else pool[..required])
              && v.totals == if kept == [] then [] else CacheTotals(v.cache)[..required]
            else if maxBatches <= 0 then v.LimitNotPositive?
            else if genBatches <= maxBatches then v.Incomplete? && Extended(cache, batch, v.cache)
            else v.TooManyBatches?
  {
    var cache', filtered, totals := Store(batch, cache);
    if |filtered| < required {
      if maxBatches <= 0 {
        return LimitNotPositive;
      }
      if genBatches <= maxBatches {
        return Incomplete(cache');
      }
      return TooManyBatches;
    }
    v := Complete(filtered[..required], totals[..required], cache');
  }

  // ---------------------------------------------------------------- the trainer's loop

  lemma {:induction false} KeptAppend<R>(x: seq<Sample<R>>, y: seq<Sample<R>>)
    ensures Kept(x + y) == Kept(x) + Kept(y)
  {
    if y == [] {
      assert x + y == x;
    } else {
      assert (x + y)[..|x + y| - 1] == x + y[..|y| - 1];
      KeptAppend(x, y[..|y| - 1]);
    }
  }

  /** All rows of batches a, ..., b - 1 with a non-zero std. */
  function KeptOf<R>(batches: seq<seq<Sample<R>>>, a: nat, b: nat): seq<Sample<R>>
    requires a <= b <= |batches|
  {
    Kept(Flatten(batches[a..b]))
  }

  lemma OneMoreBatch<R>(batches: seq<seq<Sample<R>>>, a: nat, b: nat)
    requires a <= b < |batches|
    ensures KeptOf(batches, a, b + 1) == KeptOf(batches, a, b) + Kept(batches[b])
  {
    assert batches[a..b + 1][..b - a] == batches[a..b];
    KeptAppend(Flatten(batches[a..b]), batches[b]);
  }

  /** Batches a, ..., b - 1 make one training step: they are enough, and without the last
      they are not. */
  predicate IsStep<R>(batches: seq<seq<Sample<R>>>, a: nat, b: nat, required: nat) {
    a < b <= |batches| && |KeptOf(batches, a, b - 1)| < required <= |KeptOf(batches, a, b)|
  }

  /** The steps trained on so far: each trains on the first `required` rows of its batches. */
  ghost predicate StepsOf<R>(batches: seq<seq<Sample<R>>>, required: nat, maxBatches: int, cuts: seq<nat>,
                             steps: seq<seq<Sample<R>>>)
  {
    && |cuts| == |steps| + 1 && cuts[0] == 0
    && forall k :: 0 <= k < |steps| ==> StepAt(batches, required, maxBatches, cuts[k], cuts[k + 1], steps[k])
  }

  ghost predicate StepAt<R>(batches: seq<seq<Sample<R>>>, required: nat, maxBatches: int, a: nat, b: nat,
                            step: seq<Sample<R>>)
  {
    && IsStep(batches, a, b, required) && step == KeptOf(batches, a, b)[..required]
    && (b - a <= 1 || b - a - 1 <= maxBatches)
  }

  lemma StepsSnoc<R>(batches: seq<seq<Sample<R>>>, required: nat, maxBatches: int, cuts: seq<nat>,
                     steps: seq<seq<Sample<R>>>, end: nat, step: seq<Sample<R>>)
    requires StepsOf(batches, required, maxBatches, cuts, steps)
    requires StepAt(batches, required, maxBatches, cuts[|steps|], end, step)
    ensures StepsOf(batches, required, maxBatches, cuts + [end], steps + [step])
  {
    var cuts', steps' := cuts + [end], steps + [step];
    forall k | 0 <= k < |steps'| ensures StepAt(batches, required, maxBatches, cuts'[k], cuts'[k + 1], steps'[k]) {
      assert k < |steps| ==> StepAt(batches, required, maxBatches, cuts[k], cuts[k + 1], steps[k]);
    }
  }

  datatype Failure = NoFailure | BadLimit | OutOfBatches

  /** The state of the loop before batch `i`: the cache holds what was kept since `start`. */
  predicate Collecting<R(==)>(batches: seq<seq<Sample<R>>>, required: nat, maxBatches: int, cache: Cache<R>,
                              genBatches: nat, start: nat, i: nat) {
    && start <= i <= |batches| && genBatches == i - start && (genBatches == 0 || genBatches <= maxBatches)
    && CacheOk(cache) && CacheRows(cache) == KeptOf(batches, start, i) && |KeptOf(batches, start, i)| < required
  }

  lemma StepStarts<R>(batches: seq<seq<Sample<R>>>, required: nat, maxBatches: int, i: nat)
    requires 0 < required && i <= |batches|
    ensures Collecting(batches, required, maxBatches, Nothing, 0, i, i)
  {}

  /** What one call of `dynamic_sampling` means for the step under way. */
  ghost predicate Outcome<R>(batches: seq<seq<Sample<R>>>, required: nat, maxBatches: int, start: nat, i: nat,
                             v: Verdict<R>)
    requires start <= i < |batches|
  {
    match v
    case Complete(rows, _, _) => StepAt(batches, required, maxBatches, start, i + 1, rows)
    case Incomplete(cache) => Collecting(batches, required, maxBatches, cache, i + 1 - start, start, i + 1)
    case TooManyBatches =>
      0 < maxBatches && i == start + maxBatches && |KeptOf(batches, start, i + 1)| < required
    case LimitNotPositive =>
      maxBatches <= 0 && i == start && |KeptOf(batches, start, i + 1)| < required
  }

  method NextBatch<R(==)>(batches: seq<seq<Sample<R>>>, required: nat, maxBatches: int, cache: Cache<R>,
                          genBatches: nat, ghost start: nat, i: nat) returns (v: Verdict<R>)
    requires 0 < required && i < |batches| && Collecting(batches, required, maxBatches, cache, genBatches, start, i)
    ensures Outcome(batches, required, maxBatches, start, i, v)
  {
    OneMoreBatch(batches, start, i);
    v := FilterBatch(batches[i], cache, genBatches + 1, required, maxBatches);
  }

  /** How an epoch ends that completed its last step before batch `a`. */
  ghost predicate EndsWith<R>(batches: seq<seq<Sample<R>>>, required: nat, maxBatches: int, a: nat, failure: Failure) {
    a <= |batches| &&
    match failure
    case NoFailure =>
      |KeptOf(batches, a, |batches|)| < required && (|batches| == a || |batches| - a <= maxBatches)
    case OutOfBatches =>
      0 < maxBatches && a + maxBatches + 1 <= |batches| && |KeptOf(batches, a, a + maxBatches + 1)| < required
    case BadLimit =>
      maxBatches <= 0 && a + 1 <= |batches| && |KeptOf(batches, a, a + 1)| < required
  }

  lemma VerdictEnds<R>(batches: seq<seq<Sample<R>>>, required: nat, maxBatches: int, start: nat, i: nat, v: Verdict<R>)
    requires start <= i < |batches| && Outcome(batches, required, maxBatches, start, i, v)
    ensures v.LimitNotPositive? ==> EndsWith(batches, required, maxBatches, start, BadLimit)
    ensures v.TooManyBatches? ==> EndsWith(batches, required, maxBatches, start, OutOfBatches)
  {}

  lemma DataEnds<R>(batches: seq<seq<Sample<R>>>, required: nat, maxBatches: int, cache: Cache<R>, genBatches: nat,
                    start: nat)
    requires Collecting(batches, required, maxBatches, cache, genBatches, start, |batches|)
    ensures EndsWith(batches, required, maxBatches, start, NoFailure)
  {}

  /** One epoch: `cuts` are the batches at which a training step ended, the cache is emptied
      and the count starts again. */
  method Epoch<R(==)>(batches: seq<seq<Sample<R>>>, required: nat, maxBatches: int)
    returns (failure: Failure, steps: seq<seq<Sample<R>>>, cuts: seq<nat>)
    requires 0 < required
    ensures StepsOf(batches, required, maxBatches, cuts, steps)
    ensures EndsWith(batches, required, maxBatches, cuts[|steps|], failure)
  {
    var cache: Cache<R>, genBatches: nat := Nothing, 0;
    steps, cuts := [], [0];
    StepStarts(batches, required, maxBatches, 0);
    for i := 0 to |batches|
      invariant StepsOf(batches, required, maxBatches, cuts, steps)
      invariant Collecting(batches, required, maxBatches, cache, genBatches, cuts[|steps|], i)
    {
      var v := NextBatch(batches, required, maxBatches, cache, genBatches, cuts[|steps|], i);
      VerdictEnds(batches, required, maxBatches, cuts[|steps|], i, v);
      if v.LimitNotPositive? || v.TooManyBatches? {
        return if v.TooManyBatches? then OutOfBatches else BadLimit, steps, cuts;
      }
      steps, cuts, cache, genBatches := Continue(batches, required, maxBatches, steps, cuts, genBatches, i, v);
    }
    DataEnds(batches, required, maxBatches, cache, genBatches, cuts[|steps|]);
    failure := NoFailure;
  }

  /** After a batch the step goes on with a fuller cache, or it is complete and the next one
      starts with an empty cache. */
  method Continue<R(==)>(ghost batches: seq<seq<Sample<R>>>, ghost required: nat, ghost maxBatches: int,
                         steps: seq<seq<Sample<R>>>, cuts: seq<nat>, genBatches: nat, i: nat, v: Verdict<R>)
    returns (steps': seq<seq<Sample<R>>>, cuts': seq<nat>, cache: Cache<R>, genBatches': nat)
    requires 0 < required && StepsOf(batches, required, maxBatches, cuts, steps)
    requires cuts[|steps|] <= i < |batches| && genBatches == i - cuts[|steps|]
    requires v.Complete? || v.Incomplete?
    requires Outcome(batches, required, maxBatches, cuts[|steps|], i, v)
    ensures StepsOf(batches, required, maxBatches, cuts', steps')
    ensures Collecting(batches, required, maxBatches, cache, genBatches', cuts'[|steps'|], i + 1)
  {
    if v.Complete? {
      StepsSnoc(batches, required, maxBatches, cuts, steps, i + 1, v.rows);
      StepStarts(batches, required, maxBatches, i + 1);
      steps', cuts', cache, genBatches' := steps + [v.rows], cuts + [i + 1], Nothing, 0;
    } else {
      steps', cuts', cache, genBatches' := steps, cuts, v.cache, genBatches + 1;
    }
  }

  // ---------------------------------------------------------------- there is only one way

  lemma KeptGrows<R>(batches: seq<seq<Sample<R>>>, a: nat, b: nat, c: nat)
    requires a <= b <= c <= |batches|
    ensures |KeptOf(batches, a, b)| <= |KeptOf(batches, a, c)|
  {
    assert batches[a..c] == batches[a..b] + batches[b..c];
    FlattenAppend(batches[a..b], batches[b..c]);
    KeptAppend(Flatten(batches[a..b]), Flatten(batches[b..c]));
  }

  /** The data alone decides where a step ends and what it trains on. */
  lemma StepIsDetermined<R>(batches: seq<seq<Sample<R>>>, required: nat, maxBatches: int, a: nat, b: nat, c: nat,
                            x: seq<Sample<R>>, y: seq<Sample<R>>)
    requires StepAt(batches, required, maxBatches, a, b, x) && StepAt(batches, required, maxBatches, a, c, y)
    ensures b == c && x == y
  {
    if b < c { KeptGrows(batches, a, b, c - 1); }
    if c < b { KeptGrows(batches, a, c, b - 1); }
  }

  // ---------------------------------------------------------------- every row that counts is kept

  /** The rows of `batch` with a non-zero std, by position. */
  function KeptPositions<R>(batch: seq<Sample<R>>): (p: seq<nat>)
    ensures |p| == |Kept(batch)|
  {
    if batch == [] then []
    else
      var m := |batch| - 1;
      KeptPositions(batch[..m]) + if batch[m].std != 0.0 then [m] else []
  }

  /** `p` lists the positions with a non-zero std in ascending order, none left out, and
      `kept` is the rows there. */
  ghost predicate IsSelection<R>(batch: seq<Sample<R>>, p: seq<nat>, kept: seq<Sample<R>>) {
    && |kept| == |p|
    && (forall i, j :: 0 <= i < j < |p| ==> p[i] < p[j])
    && (forall i :: 0 <= i < |p| ==> p[i] < |batch| && kept[i] == batch[p[i]])
    && (forall k: nat :: k in p <==> k < |batch| && batch[k].std != 0.0)
  }

  lemma {:induction false} KeptExactly<R>(batch: seq<Sample<R>>)
    ensures IsSelection(batch, KeptPositions(batch), Kept(batch))
  {
    if batch != [] {
      var m := |batch| - 1;
      KeptExactly(batch[..m]);
      SelectionSnoc(batch[..m], batch[m], KeptPositions(batch[..m]), Kept(batch[..m]));
      assert batch[..m] + [batch[m]] == batch;
    }
  }

  lemma SelectionSnoc<R>(batch: seq<Sample<R>>, row: Sample<R>, p: seq<nat>, kept: seq<Sample<R>>)
    requires IsSelection(batch, p, kept)
    ensures IsSelection(batch + [row], p + (if row.std != 0.0 then [|batch|] else []),
                        kept + if row.std != 0.0 then [row] else [])
  {
    forall i | 0 <= i < |p| ensures p[i] < |batch| {
      assert p[i] in p;
    }
  }

  /** A step trains on the first `required` rows of its batches that have a non-zero std, in
      the order in which they were generated: a row of the batches is left out exactly when
      its std is zero or the step was full before it. */
  lemma StepRows<R>(batches: seq<seq<Sample<R>>>, required: nat, maxBatches: int, a: nat, b: nat,
                    step: seq<Sample<R>>)
    requires StepAt(batches, required, maxBatches, a, b, step)
    ensures |step| == required
    ensures var rows, p := Flatten(batches[a..b]), KeptPositions(Flatten(batches[a..b]));
            && required <= |p| && step == Kept(rows)[..required]
            && IsSelection(rows, p, Kept(rows))
            && forall k: nat :: k < |rows| ==>
                 (k in p[..required] <==> rows[k].std != 0.0 && (required == |p| || k < p[required]))
  {
    var rows, p := Flatten(batches[a..b]), KeptPositions(Flatten(batches[a..b]));
    KeptExactly(rows);
    forall k: nat | k < |rows|
      ensures k in p[..required] <==> rows[k].std != 0.0 && (required == |p| || k < p[required])
    {
      FrontOf(p, required, k);
    }
  }

  lemma FrontOf(p: seq<nat>, n: nat, k: nat)
    requires n <= |p| && forall i, j :: 0 <= i < j < |p| ==> p[i] < p[j]
    ensures k in p[..n] <==> k in p && (n == |p| || k < p[n])
  {
    if k in p {
      var i :| 0 <= i < |p| && p[i] == k;
      if i < n { assert p[..n][i] == k; }
    }
  }
}
