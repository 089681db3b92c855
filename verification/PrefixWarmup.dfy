/** Prefix-length warmup of distillation: which response tokens a training step keeps
    (`_resolve_prefix_ratio`, `_apply_prefix_length_warmup_`,
    nemo_rl/algorithms/distillation.py). */
module PrefixWarmup {
  import opened Lists

  // ---------------------------------------------------------------- the ratio

  datatype Entry = Entry(untilStepFrac: real, prefixRatio: real)

  datatype Mode =
    | Off                            // no config, or mode "none"
    | Fixed(ratio: real)
    | Stepwise(schedule: seq<Entry>)
    | Cosine(start: real, until: real)
    | Unknown                        // any other mode: ValueError

  /** math.cos and math.pi */
  datatype Trig = Trig(cos: real -> real, pi: real)

  datatype Ratio = Ratio(value: real) | Failed

  /** max(min(x, 1.0), 0.0) */
  function Clamp(x: real): (r: real)
    ensures 0.0 <= r <= 1.0
  {
    var capped := if x < 1.0 then x else 1.0;
    if capped > 0.0 then capped else 0.0
  }

  /** Share of the training done; 0 when the number of steps is not positive. */
  function StepFrac(step: nat, maxSteps: int): (f: real)
    ensures 0.0 <= f <= 1.0
  {
    if maxSteps <= 0 then 0.0
    else
      FracIsPositive(step as real, maxSteps as real);
      var f := step as real / maxSteps as real;
      if f < 1.0 then f else 1.0
  }

  lemma FracIsPositive(a: real, b: real)
    requires a >= 0.0 && b > 0.0
    ensures a / b >= 0.0
  {}

  function FirstCovering(schedule: seq<Entry>, frac: real): (i: nat)
    ensures i <= |schedule|
    ensures i < |schedule| ==> frac <= schedule[i].untilStepFrac
    ensures forall k :: 0 <= k < i ==> frac > schedule[k].untilStepFrac
    decreases |schedule|
  {
    if schedule == [] || frac <= schedule[0].untilStepFrac then 0 else 1 + FirstCovering(schedule[1..], frac)
  }

  /** Share of the cosine's warmup that is done. */
  function Progress(frac: real, until: real): (p: real)
    requires 0.0 <= frac && 0.0 < until
    ensures 0.0 <= p <= 1.0
  {
    FracIsPositive(frac, until);
    if frac / until < 1.0 then frac / until else 1.0
  }

  /** Half of one minus the cosine: from 0 to 1 without a jump in speed. */
  function Curve(trig: Trig, angle: real): real { 0.5 * (1.0 - trig.cos(angle)) }

  /** From `s` to 1 as `c` goes from 0 to 1. */
  function Blend(s: real, c: real): real { s + (1.0 - s) * c }

  /** The angle, which goes from 0 to pi during the warmup. */
  function Angle(trig: Trig, frac: real, until: real): real
    requires 0.0 <= frac && 0.0 < until
  {
    Times(trig.pi, Progress(frac, until))
  }

  function Times(x: real, y: real): real { x * y }

  function CosineRatio(start: real, until: real, frac: real, trig: Trig): real
    requires 0.0 <= frac
  {
    var s, u := Clamp(start), Clamp(until);
    if u <= 0.0 || s >= 1.0 then 1.0
    else Clamp(Blend(s, Curve(trig, Angle(trig, frac, u))))
  }

  function ResolvePrefixRatio(mode: Mode, step: nat, maxSteps: int, trig: Trig): Ratio {
    match mode
    case Off => Ratio(1.0)
    case Fixed(ratio) => Ratio(Clamp(ratio))
    case Stepwise(schedule) =>
      var i := FirstCovering(schedule, StepFrac(step, maxSteps));
      if i < |schedule| then Ratio(Clamp(schedule[i].prefixRatio))
      else if schedule == [] then Failed
      else Ratio(Clamp(schedule[|schedule| - 1].prefixRatio))
    case Cosine(start, until) => Ratio(CosineRatio(start, until, StepFrac(step, maxSteps), trig))
    case Unknown => Failed
  }

  // ---------------------------------------------------------------- what each mode yields

  /** `v` is the number of the unit interval closest to `x`. */
  predicate IsClosest(v: real, x: real) {
    0.0 <= v <= 1.0 && (v < x ==> v == 1.0) && (v > x ==> v == 0.0)
  }

  /** `f` is step / maxSteps, but at most 1, and 0 if there are no steps. */
  ghost predicate IsStepFrac(f: real, step: nat, maxSteps: int) {
    if maxSteps <= 0 then f == 0.0
    else if step < maxSteps then f * maxSteps as real == step as real
    else f == 1.0
  }

  lemma StepFracMeans(step: nat, maxSteps: int)
    ensures IsStepFrac(StepFrac(step, maxSteps), step, maxSteps)
  {
    if maxSteps > 0 { QuotientBelowOne(step as real, maxSteps as real); }
  }

  lemma QuotientBelowOne(a: real, b: real)
    requires b > 0.0
    ensures a / b < 1.0 <==> a < b
    ensures a / b * b == a
  {}

  /** Entry `i` is the first that reaches as far as `frac`, or the last if none does. */
  predicate Covers(schedule: seq<Entry>, i: nat, frac: real) {
    && i < |schedule|
    && (forall k :: 0 <= k < i ==> schedule[k].untilStepFrac < frac)
    && (frac <= schedule[i].untilStepFrac || i == |schedule| - 1)
  }

  /** The ratio of each mode but the cosine, and the two inputs that are refused. */
  lemma RatioOfMode(mode: Mode, step: nat, maxSteps: int, trig: Trig, frac: real)
    requires IsStepFrac(frac, step, maxSteps)
    ensures var ratio := ResolvePrefixRatio(mode, step, maxSteps, trig);
            match mode
            case Off => ratio == Ratio(1.0)
            case Fixed(x) => ratio.Ratio? && IsClosest(ratio.value, x)
            case Stepwise(schedule) =>
              if schedule == [] then ratio == Failed
              else
                && ratio.Ratio?
                && exists i: nat :: Covers(schedule, i, frac) && IsClosest(ratio.value, schedule[i].prefixRatio)
            case Cosine(_, _) => ratio.Ratio?
            case Unknown => ratio == Failed
  {
    StepFracMeans(step, maxSteps);
    OneStepFrac(step, maxSteps, frac, StepFrac(step, maxSteps));
    if mode.Stepwise? && mode.schedule != [] {
      var found := FirstCovering(mode.schedule, frac);
      var i := if found < |mode.schedule| then found else |mode.schedule| - 1;
      assert Covers(mode.schedule, i, frac);
    }
  }

  lemma OneStepFrac(step: nat, maxSteps: int, f: real, g: real)
    requires IsStepFrac(f, step, maxSteps) && IsStepFrac(g, step, maxSteps)
    ensures f == g
  {
    if 0 < maxSteps && step < maxSteps { Cancels(f, g, maxSteps as real); }
  }

  lemma Cancels(f: real, g: real, b: real)
    requires b > 0.0 && f * b == g * b
    ensures f == g
  {
    assert (f - g) * b == 0.0;
  }

  /** Only one entry covers a step. */
  lemma CoversOnce(schedule: seq<Entry>, i: nat, j: nat, frac: real)
    requires Covers(schedule, i, frac) && Covers(schedule, j, frac)
    ensures i == j
  {}

  /** All that is assumed of the cosine, and only where a lemma says so: on [0, pi] it falls
      from 1 to -1. */
  ghost predicate CosineFalls(trig: Trig) {
    && trig.pi > 0.0 && trig.cos(0.0) == 1.0 && trig.cos(trig.pi) == -1.0
    && forall x, y :: 0.0 <= x <= y <= trig.pi ==> FallsBetween(trig, x, y)
  }

  ghost predicate FallsBetween(trig: Trig, x: real, y: real) { trig.cos(y) <= trig.cos(x) }

  /** The cosine mode starts at its start ratio; once its share of the training is over it is
      at full length and stays there. Without a share it is at full length from the start. */
  lemma CosineEndpoints(start: real, until: real, frac: real, trig: Trig)
    requires CosineFalls(trig) && 0.0 <= frac <= 1.0
    ensures 0.0 < until ==> IsClosest(CosineRatio(start, until, 0.0, trig), start)
    ensures until <= 0.0 || until <= frac || frac == 1.0 ==> CosineRatio(start, until, frac, trig) == 1.0
  {
    var s, u := Clamp(start), Clamp(until);
    BlendEnds(s);
    if u > 0.0 && s < 1.0 {
      assert Angle(trig, 0.0, u) == 0.0;
      if u <= frac {
        QuotientBelowOne(frac, u);
        assert Angle(trig, frac, u) == trig.pi;
      }
    }
  }

  /** Between the ends: the remaining way to full length, times half of one minus the cosine. */
  lemma CosineBetween(start: real, until: real, frac: real, trig: Trig, angle: real)
    requires CosineFalls(trig) && 0.0 <= start < 1.0 && 0.0 < until <= 1.0 && 0.0 <= frac <= until
    requires angle * until == trig.pi * frac
    ensures CosineRatio(start, until, frac, trig) == start + Times(1.0 - start, 0.5 * (1.0 - trig.cos(angle)))
  {
    AngleOf(until, frac, trig, angle);
    AnglesAscend(trig, frac, frac, until);
    CurveInUnit(trig, angle);
    BlendInUnit(start, Curve(trig, angle));
    BlendIs(start, Curve(trig, angle));
  }

  lemma BlendIs(s: real, c: real)
    ensures Blend(s, c) == s + Times(1.0 - s, c)
  {}

  lemma AngleOf(until: real, frac: real, trig: Trig, angle: real)
    requires 0.0 < until && 0.0 <= frac <= until && angle * until == trig.pi * frac
    ensures angle == Angle(trig, frac, until)
  {
    var p := Progress(frac, until);
    QuotientBelowOne(frac, until);
    assert p * until == frac;
    assert trig.pi * p * until == trig.pi * frac by { assert trig.pi * p * until == trig.pi * (p * until); }
    Cancels(angle, trig.pi * p, until);
  }

  lemma AnglesAscend(trig: Trig, f: real, g: real, u: real)
    requires trig.pi > 0.0 && 0.0 <= f <= g && 0.0 < u
    ensures 0.0 <= Angle(trig, f, u) <= Angle(trig, g, u) <= trig.pi
  {
    DivisionAscends(f, g, u);
    ScaledInRange(trig.pi, Progress(f, u), Progress(g, u));
  }

  lemma ScaledInRange(c: real, p: real, q: real)
    requires c > 0.0 && 0.0 <= p <= q <= 1.0
    ensures 0.0 <= Times(c, p) <= Times(c, q) <= c
  {
    ScaleAscends(c, 0.0, p);
    ScaleAscends(c, p, q);
    ScaleAscends(c, q, 1.0);
    UnitTimes(c);
  }

  lemma UnitTimes(c: real)
    ensures Times(c, 0.0) == 0.0 && Times(c, 1.0) == c
  {}

  lemma ScaleAscends(c: real, x: real, y: real)
    requires c >= 0.0 && x <= y
    ensures Times(c, x) <= Times(c, y)
  {
    assert c * (y - x) >= 0.0;
    assert c * y == c * x + c * (y - x);
  }

  lemma CurveInUnit(trig: Trig, angle: real)
    requires CosineFalls(trig) && 0.0 <= angle <= trig.pi
    ensures 0.0 <= Curve(trig, angle) <= 1.0
  {
    assert FallsBetween(trig, 0.0, angle);
    assert FallsBetween(trig, angle, trig.pi);
  }

  lemma BlendAscends(s: real, x: real, y: real)
    requires s <= 1.0 && x <= y
    ensures Blend(s, x) <= Blend(s, y)
  {
    assert (1.0 - s) * (y - x) >= 0.0;
    assert (1.0 - s) * y == (1.0 - s) * x + (1.0 - s) * (y - x);
  }

  lemma BlendEnds(s: real)
    ensures Blend(s, 0.0) == s && Blend(s, 1.0) == 1.0
  {}

  lemma BlendInUnit(s: real, c: real)
    requires 0.0 <= s <= 1.0 && 0.0 <= c <= 1.0
    ensures 0.0 <= Blend(s, c) <= 1.0
  {
    BlendEnds(s);
    BlendAscends(s, 0.0, c);
    BlendAscends(s, c, 1.0);
  }

  // ---------------------------------------------------------------- it only grows

  /** The schedule never takes tokens away again. */
  predicate Ascending(schedule: seq<Entry>) {
    forall i, j :: 0 <= i < j < |schedule| ==> schedule[i].prefixRatio <= schedule[j].prefixRatio
  }

  lemma FracAscends(s: nat, t: nat, maxSteps: int)
    requires s <= t
    ensures StepFrac(s, maxSteps) <= StepFrac(t, maxSteps)
  {
    if maxSteps > 0 { DivisionAscends(s as real, t as real, maxSteps as real); }
  }

  lemma DivisionAscends(a: real, b: real, d: real)
    requires a <= b && d > 0.0
    ensures a / d <= b / d
  {
    assert (b - a) / d >= 0.0;
    assert b / d == a / d + (b - a) / d;
  }

  lemma CosineGrows(start: real, until: real, f: real, g: real, trig: Trig)
    requires CosineFalls(trig) && 0.0 <= f <= g
    ensures CosineRatio(start, until, f, trig) <= CosineRatio(start, until, g, trig)
  {
    var s, u := Clamp(start), Clamp(until);
    if u > 0.0 && s < 1.0 {
      AnglesAscend(trig, f, g, u);
      CurveAscends(trig, s, Angle(trig, f, u), Angle(trig, g, u));
    }
  }

  lemma CurveAscends(trig: Trig, s: real, x: real, y: real)
    requires CosineFalls(trig) && 0.0 <= x <= y <= trig.pi && s <= 1.0
    ensures Blend(s, Curve(trig, x)) <= Blend(s, Curve(trig, y))
  {
    assert FallsBetween(trig, x, y);
    BlendAscends(s, Curve(trig, x), Curve(trig, y));
  }

  /** The settings under which the ratio is meant to grow. */
  ghost predicate Growing(mode: Mode, trig: Trig) {
    (mode.Stepwise? ==> Ascending(mode.schedule)) && (mode.Cosine? ==> CosineFalls(trig))
  }

  /** Over training the ratio only grows, whatever the order of the step fractions. */
  lemma RatioGrows(mode: Mode, s: nat, t: nat, maxSteps: int, trig: Trig)
    requires s <= t && Growing(mode, trig)
    ensures ResolvePrefixRatio(mode, s, maxSteps, trig).Ratio? <==> ResolvePrefixRatio(mode, t, maxSteps, trig).Ratio?
    ensures ResolvePrefixRatio(mode, s, maxSteps, trig).Ratio? ==>
              var early := ResolvePrefixRatio(mode, s, maxSteps, trig).value;
              0.0 <= early <= ResolvePrefixRatio(mode, t, maxSteps, trig).value <= 1.0
  {
    FracAscends(s, t, maxSteps);
    if mode.Stepwise? {
      var i := FirstCovering(mode.schedule, StepFrac(s, maxSteps));
      var j := FirstCovering(mode.schedule, StepFrac(t, maxSteps));
      assert i <= j;
    }
    if mode.Cosine? {
      CosineGrows(mode.start, mode.until, StepFrac(s, maxSteps), StepFrac(t, maxSteps), trig);
    }
  }

  // ---------------------------------------------------------------- the mask

  /** Python's round: to the nearest integer, ties to the even one. */
  function RoundHalfEven(x: real): int {
    var down := x.Floor;
    var rest := x - down as real;
    if rest < 0.5 then down else if rest > 0.5 then down + 1 else if down % 2 == 0 then down else down + 1
  }

  lemma RoundAscends(x: real, y: real)
    requires x <= y
    ensures RoundHalfEven(x) <= RoundHalfEven(y)
  {}

  /** `n` is the integer nearest to `x`, the even one of two. */
  ghost predicate IsNearest(n: int, x: real) {
    -0.5 <= x - n as real <= 0.5 && (x - n as real == 0.5 || x - n as real == -0.5 ==> n % 2 == 0)
  }

  lemma RoundIsNearest(x: real)
    ensures IsNearest(RoundHalfEven(x), x)
  {}

  const DEN: int := 1_000_000

  function Millionths(ratio: real): int { RoundHalfEven(ratio * 1000000.0) }

  predicate IsMask(mask: seq<int>) { forall j :: 0 <= j < |mask| ==> mask[j] == 0 || mask[j] == 1 }

  /** Response tokens in a row. */
  function Count(mask: seq<int>): (n: nat)
    requires IsMask(mask)
    ensures n <= |mask|
  {
    if mask == [] then 0 else Count(mask[..|mask| - 1]) + mask[|mask| - 1]
  }

  /** keep_counts: (n * num + den - 1) // den */
  function KeepCount(n: nat, num: int): int { (n * num + (DEN - 1)) / DEN }

  /** Response tokens up to and including position `j`. */
  function Cumulative(mask: seq<int>, j: nat): nat
    requires IsMask(mask) && j < |mask|
  {
    Count(mask[..j + 1])
  }

  function ApplyToRow(mask: seq<int>, ratio: real): (r: seq<int>)
    requires IsMask(mask)
    ensures |r| == |mask| && IsMask(r)
  {
    if ratio >= 1.0 then mask
    else Truncated(mask, KeepCount(Count(mask), Millionths(ratio)))
  }

  /** A response token stays when it is among the first `keep`. */
  function Truncated(mask: seq<int>, keep: int): (r: seq<int>)
    requires IsMask(mask)
    ensures |r| == |mask| && IsMask(r)
    ensures forall j :: 0 <= j < |mask| ==> r[j] == if mask[j] == 1 && Cumulative(mask, j) <= keep then 1 else 0
  {
    seq(|mask|, j requires 0 <= j < |mask| =>
      if mask[j] == 1 then (if Cumulative(mask, j) <= keep then 1 else 0) else mask[j])
  }

  // ---------------------------------------------------------------- what is kept

  /** Exactly the first `keep` response tokens remain, or all of them when there are fewer. */
  lemma {:induction false} TruncatedCount(mask: seq<int>, keep: nat, n: nat)
    requires IsMask(mask) && n <= |mask|
    ensures Count(Truncated(mask, keep)[..n]) == Min(Count(mask[..n]), keep)
  {
    if n > 0 {
      var kept := Truncated(mask, keep);
      TruncatedCount(mask, keep, n - 1);
      assert mask[..n][..n - 1] == mask[..n - 1] && kept[..n][..n - 1] == kept[..n - 1];
    }
  }

  /** `keep` is n * num / 10^6, rounded up. */
  ghost predicate IsCeiling(keep: int, n: nat, num: int) { (keep - 1) * DEN < n * num <= keep * DEN }

  lemma KeepCountIsCeiling(n: nat, num: int)
    requires 0 <= num <= DEN
    ensures 0 <= KeepCount(n, num) <= n && IsCeiling(KeepCount(n, num), n, num)
  {
    assert n * num <= n * DEN;
    assert n * num >= 0;
  }

  lemma MillionthsInRange(ratio: real)
    requires 0.0 <= ratio <= 1.0
    ensures 0 <= Millionths(ratio) <= DEN
  {
    RoundAscends(0.0, ratio * 1000000.0);
    RoundAscends(ratio * 1000000.0, 1000000.0);
  }

  lemma KeepsFirst(mask: seq<int>, keep: nat, j: nat)
    requires IsMask(mask) && keep <= Count(mask) && j <= |mask|
    ensures Count(Truncated(mask, keep)) == keep
    ensures Count(Truncated(mask, keep)[..j]) == Min(Count(mask[..j]), keep)
  {
    TruncatedCount(mask, keep, j);
    TruncatedCount(mask, keep, |mask|);
    assert mask[..|mask|] == mask && Truncated(mask, keep)[..|mask|] == Truncated(mask, keep);
  }

  lemma MillionthsNearest(ratio: real)
    ensures IsNearest(Millionths(ratio), ratio * 1000000.0)
  {
    RoundIsNearest(ratio * 1000000.0);
  }

  /** The row keeps ceil(n * num / 10^6) of its n response tokens, where num / 10^6 is the
      nearest to the ratio, and they are the first: at every position it has kept as many as
      there were, until that number is reached. */
  lemma KeepsFirstTokens(mask: seq<int>, ratio: real, j: nat)
    requires IsMask(mask) && 0.0 <= ratio < 1.0 && j <= |mask|
    ensures IsNearest(Millionths(ratio), ratio * 1000000.0)
    ensures var kept := Count(ApplyToRow(mask, ratio));
            && 0 <= kept <= Count(mask) && IsCeiling(kept, Count(mask), Millionths(ratio))
            && Count(ApplyToRow(mask, ratio)[..j]) == Min(Count(mask[..j]), kept)
  {
    MillionthsInRange(ratio);
    MillionthsNearest(ratio);
    KeepCountIsCeiling(Count(mask), Millionths(ratio));
    KeepsFirst(mask, KeepCount(Count(mask), Millionths(ratio)), j);
  }

  predicate Within(small: seq<int>, large: seq<int>) {
    |small| == |large| && forall j :: 0 <= j < |small| ==> small[j] <= large[j]
  }

  lemma KeepCountAscends(n: nat, a: int, b: int)
    requires a <= b
    ensures KeepCount(n, a) <= KeepCount(n, b)
  {
    assert n * b == n * a + n * (b - a);
    assert n * (b - a) >= 0;
  }

  /** A larger ratio keeps every token a smaller one keeps; the row itself is the upper end. */
  lemma LargerRatioKeepsMore(mask: seq<int>, r1: real, r2: real)
    requires IsMask(mask) && r1 <= r2
    ensures Within(ApplyToRow(mask, r1), ApplyToRow(mask, r2))
    ensures Within(ApplyToRow(mask, r2), mask)
  {
    if r2 < 1.0 {
      RoundAscends(r1 * 1000000.0, r2 * 1000000.0);
      KeepCountAscends(Count(mask), Millionths(r1), Millionths(r2));
    }
  }

  /** At least one response token stays as soon as the ratio rounds to a millionth. */
  lemma KeepsAtLeastOne(mask: seq<int>, ratio: real)
    requires IsMask(mask) && 0.0 <= ratio && Count(mask) > 0
    ensures Count(ApplyToRow(mask, ratio)) > 0 <==> (ratio >= 1.0 || Millionths(ratio) >= 1)
  {
    if ratio < 1.0 {
      KeepsFirstTokens(mask, ratio, 0);
      MillionthsInRange(ratio);
      SomeProduct(Count(mask), Millionths(ratio));
    }
  }

  lemma SomeProduct(n: nat, num: nat)
    requires n > 0
    ensures KeepCount(n, num) > 0 <==> num > 0
  {
    assert num > 0 ==> n * num >= 1;
  }

  // ---------------------------------------------------------------- the whole batch

  /** The batch's new mask with the two counts reported as metrics. */
  datatype Warmed = Warmed(mask: seq<seq<int>>, total: nat, kept: nat)

  predicate AreMasks(rows: seq<seq<int>>) { forall i :: 0 <= i < |rows| ==> IsMask(rows[i]) }

  function TotalCount(rows: seq<seq<int>>): nat
    requires AreMasks(rows)
  {
    if rows == [] then 0 else TotalCount(rows[..|rows| - 1]) + Count(rows[|rows| - 1])
  }

  function ApplyPrefixLengthWarmup(rows: seq<seq<int>>, ratio: real): (w: Warmed)
    requires AreMasks(rows)
    ensures |w.mask| == |rows| && AreMasks(w.mask) && w.total == TotalCount(rows)
    ensures forall i :: 0 <= i < |rows| ==> w.mask[i] == ApplyToRow(rows[i], ratio)
    ensures w.kept == TotalCount(w.mask)
  {
    if ratio >= 1.0 then Warmed(rows, TotalCount(rows), TotalCount(rows))
    else
      var masks := seq(|rows|, i requires 0 <= i < |rows| => ApplyToRow(rows[i], ratio));
      Warmed(masks, TotalCount(rows), TotalCount(masks))
  }

  lemma {:induction false} CountWithin(small: seq<int>, large: seq<int>)
    requires IsMask(small) && IsMask(large) && Within(small, large)
    ensures Count(small) <= Count(large)
  {
    if small != [] { CountWithin(small[..|small| - 1], large[..|large| - 1]); }
  }

  predicate AllWithin(small: seq<seq<int>>, large: seq<seq<int>>) {
    |small| == |large| && forall i :: 0 <= i < |small| ==> Within(small[i], large[i])
  }

  lemma {:induction false} TotalWithin(small: seq<seq<int>>, large: seq<seq<int>>)
    requires AreMasks(small) && AreMasks(large) && AllWithin(small, large)
    ensures TotalCount(small) <= TotalCount(large)
  {
    if small != [] {
      TotalWithin(small[..|small| - 1], large[..|large| - 1]);
      CountWithin(small[|small| - 1], large[|large| - 1]);
    }
  }

  /** Over training, with a schedule that never goes back, tokens are only ever added to any
      row of the batch, and the reported count of kept tokens never falls. */
  lemma MaskGrowsOverTraining(rows: seq<seq<int>>, mode: Mode, s: nat, t: nat, maxSteps: int, trig: Trig)
    requires AreMasks(rows) && s <= t && Growing(mode, trig)
    requires ResolvePrefixRatio(mode, s, maxSteps, trig).Ratio?
    ensures ResolvePrefixRatio(mode, t, maxSteps, trig).Ratio?
    ensures var early := ApplyPrefixLengthWarmup(rows, ResolvePrefixRatio(mode, s, maxSteps, trig).value);
            var late := ApplyPrefixLengthWarmup(rows, ResolvePrefixRatio(mode, t, maxSteps, trig).value);
            && AllWithin(early.mask, late.mask) && AllWithin(late.mask, rows)
            && early.kept <= late.kept <= late.total == early.total
  {
    RatioGrows(mode, s, t, maxSteps, trig);
    var r1, r2 := ResolvePrefixRatio(mode, s, maxSteps, trig).value, ResolvePrefixRatio(mode, t, maxSteps, trig).value;
    forall i | 0 <= i < |rows|
      ensures Within(ApplyToRow(rows[i], r1), ApplyToRow(rows[i], r2)) && Within(ApplyToRow(rows[i], r2), rows[i])
    {
      LargerRatioKeepsMore(rows[i], r1, r2);
    }
    TotalWithin(ApplyPrefixLengthWarmup(rows, r1).mask, ApplyPrefixLengthWarmup(rows, r2).mask);
    TotalWithin(ApplyPrefixLengthWarmup(rows, r2).mask, rows);
  }
}
