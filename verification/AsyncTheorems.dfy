/** What holds in every state of every clean run of the asynchronous protocol. */
module AsyncTheorems {
  import opened Lists
  import opened ReplayBuffers
  import opened Collectors
  import opened AsyncProtocol
  import opened AsyncSafety

  /** Every buffered group is fresh: generated at most `age` versions before the step it is
      meant for, and meant for a step still to come. So sampling never reports stale
      groups, its age filter removes nothing, the trainer never crashes, and a batch has
      exactly `n` groups, all for this step, of average age within the window. */
  lemma NoStaleTrajectory(cfg: Config, s: State)
    requires cfg.Valid() && SafelyReachable(cfg, s)
    ensures !s.trainer.Crashed?
    ensures forall g :: g in s.buffer.groups ==>
              g.target - cfg.age <= g.version <= g.target && g.target >= s.version
    ensures forall wk :: wk in s.workers ==>
              wk.target - cfg.age <= wk.version <= wk.target && (!wk.pushed ==> wk.target >= s.version)
    ensures CountInWindow(s.buffer.groups, s.version, cfg.age) == |s.buffer.groups|
    ensures !SampleReply(cfg, s).OlderThanWindow? && !SampleReply(cfg, s).NoGroupsRequested?
    ensures SampleReply(cfg, s).Batch? ==>
              && |Selected(s.buffer.groups, cfg.n, s.version, cfg.age)| == cfg.n
              && (forall g :: g in Selected(s.buffer.groups, cfg.n, s.version, cfg.age) ==> g.target == s.version)
              && 0.0 <= SampleReply(cfg, s).averageAge <= cfg.age as real
  {
    ReachableInv(cfg, s);
    BufferInWindow(cfg, s);
    forall wk | wk in s.workers && !wk.pushed ensures wk.target >= s.version {
      var k :| 0 <= k < |s.workers| && s.workers[k] == wk;
      PushedIsUntrained(cfg, s, k);
    }
    if SampleReply(cfg, s).Batch? {
      SampleIsFifo(s.buffer.groups, cfg.n, s.version, cfg.age);
      AverageAgeWithinWindow(s.buffer.groups, cfg.n, s.version, cfg.age);
    }
  }

  /** Reservations are made in strictly increasing order, so no target is ever reserved twice. */
  lemma NoTargetReservedTwice(cfg: Config, s: State)
    requires cfg.Valid() && SafelyReachable(cfg, s)
    ensures Increasing(s.reserved)
    ensures forall t :: |WithTarget(s.pushed, t)| <= cfg.n
  {
    ReachableInv(cfg, s);
    forall t ensures |WithTarget(s.pushed, t)| <= cfg.n {
      assert CountAt(cfg, s, t);
    }
  }

  // ---------------------------------------------------------------- the buffer never fills

  function Targets(s: seq<Group<nat>>): (m: multiset<int>)
  {
    if s == [] then multiset{}
    else Targets(s[..|s| - 1]) + multiset{s[|s| - 1].target}
  }

  function FlyingTargets(ws: seq<Worker>): multiset<int> {
    if ws == [] then multiset{}
    else
      var wk := ws[|ws| - 1];
      FlyingTargets(ws[..|ws| - 1]) + if wk.pushed then multiset{} else multiset{wk.target}
  }

  lemma {:induction false} TargetsCount(s: seq<Group<nat>>)
    ensures |Targets(s)| == |s|
    ensures forall t :: Targets(s)[t] == |WithTarget(s, t)|
  {
    if s != [] { TargetsCount(s[..|s| - 1]); }
  }

  lemma {:induction false} TargetsOfLater(s: seq<Group<nat>>, lo: int)
    ensures forall t :: Targets(FromTarget(s, lo))[t] == if t >= lo then |WithTarget(s, t)| else 0
  {
    if s != [] {
      var m := |s| - 1;
      TargetsOfLater(s[..m], lo);
      TargetsSnoc(FromTarget(s[..m], lo), s[m]);
      var all := Targets(FromTarget(s, lo));
      if s[m].target >= lo {
        assert FromTarget(s, lo) == FromTarget(s[..m], lo) + [s[m]];
      } else {
        assert FromTarget(s, lo) == FromTarget(s[..m], lo);
      }
    }
  }

  lemma TargetsSnoc(s: seq<Group<nat>>, g: Group<nat>)
    ensures Targets(s + [g]) == Targets(s) + multiset{g.target}
  {
    assert (s + [g])[..|s|] == s;
  }

  lemma {:induction false} FlyingTargetsCount(ws: seq<Worker>)
    ensures forall t :: FlyingTargets(ws)[t] == Flying(ws, t)
  {
    if ws != [] { FlyingTargetsCount(ws[..|ws| - 1]); }
  }

  lemma {:induction false} BoundedMultiset(m: multiset<int>, lo: int, width: nat, n: nat)
    requires forall t :: m[t] <= n
    requires forall t :: t in m ==> lo <= t < lo + width
    ensures |m| <= n * width
  {
    if width == 0 {
      forall t ensures m[t] == 0 { assert t !in m; }
      assert m == multiset{};
    } else {
      var top := lo + width - 1;
      var rest := m[top := 0];
      BoundedMultiset(rest, lo, width - 1, n);
      assert |m| == |rest| + m[top];
      assert n * width == n * (width - 1) + n;
    }
  }

  /** Buffered groups and groups still being generated together never exceed `n * (age + 1)`:
      at most `n` for each of the `age + 1` targets that can be outstanding. */
  lemma OutstandingBound(cfg: Config, s: State)
    requires cfg.Valid() && Inv(cfg, s)
    ensures |s.buffer.groups| + |FlyingTargets(s.workers)| <= cfg.n * (cfg.age + 1)
  {
    var m := Targets(s.buffer.groups) + FlyingTargets(s.workers);
    TargetsCount(s.buffer.groups);
    TargetsOfLater(s.pushed, Untrained(s));
    FlyingTargetsCount(s.workers);
    forall t ensures m[t] <= cfg.n && (t in m ==> Untrained(s) <= t < Untrained(s) + cfg.age + 1) {
      assert CountAt(cfg, s, t);
      if t in m {
        assert t in s.reserved;
        if t < Untrained(s) { TrainedWasReserved(cfg, s, t); }
      }
    }
    BoundedMultiset(m, Untrained(s), cfg.age + 1, cfg.n);
  }

  /** The configured buffer is large enough: no push ever finds it full, so no worker backs
      off; and the workers in flight never exceed the semaphore's permits. */
  lemma BufferNeverFull(cfg: Config, s: State)
    requires cfg.Valid() && SafelyReachable(cfg, s)
    ensures |s.buffer.groups| <= cfg.n * (cfg.age + 1) <= s.buffer.maxSize == cfg.n * cfg.age * 2
    ensures |s.workers| <= cfg.n * cfg.age
    ensures forall k: nat :: Enabled(cfg, s, Push(k)) ==> PushStatusOf(s.buffer) == Success
  {
    ReachableInv(cfg, s);
    OutstandingBound(cfg, s);
    SizeArithmetic(cfg.n, cfg.age);
    forall k: nat | Enabled(cfg, s, Push(k)) ensures PushStatusOf(s.buffer) == Success {
      FlyingWithout(s.workers, k, s.workers[k].target);
      FlyingTargetsCount(s.workers);
      assert s.workers[k].target in FlyingTargets(s.workers);
    }
  }

  lemma SizeArithmetic(n: int, age: int)
    requires 0 < n && 0 < age
    ensures n * (age + 1) <= n * age * 2
  {
    assert n * (age + 1) == n * age + n;
    assert n * age == n * (age - 1) + n;
    assert n * (age - 1) >= 0;
  }

  // ---------------------------------------------------------------- what is trained on

  ghost predicate BatchesOf(pushed: seq<Group<nat>>, lo: int, batches: seq<seq<Group<nat>>>) {
    forall i :: 0 <= i < |batches| ==> batches[i] == WithTarget(pushed, lo + i)
  }

  /** Every pushed group is in one of the batches or aimed at `hi` or later. */
  ghost predicate Partitions(pushed: seq<Group<nat>>, batches: seq<seq<Group<nat>>>, hi: int) {
    multiset(pushed) == multiset(Flatten(batches)) + multiset(FromTarget(pushed, hi))
  }

  /** The batches of steps lo, ..., hi - 1 are exactly the pushes of those targets. */
  lemma {:induction false} StepsPartition(pushed: seq<Group<nat>>, lo: int, batches: seq<seq<Group<nat>>>, hi: int)
    requires BatchesOf(pushed, lo, batches) && hi == lo + |batches|
    requires forall g :: g in pushed ==> lo <= g.target
    ensures Partitions(pushed, batches, hi)
  {
    if batches == [] {
      NoBatch(pushed, lo, batches, hi);
    } else {
      var front, last := batches[..|batches| - 1], batches[|batches| - 1];
      FrontBatches(pushed, lo, front, last, batches, hi);
      StepsPartition(pushed, lo, front, hi - 1);
      NextBatch(pushed, front, last, batches, hi);
    }
  }

  lemma FrontBatches(pushed: seq<Group<nat>>, lo: int, front: seq<seq<Group<nat>>>, last: seq<Group<nat>>,
                     batches: seq<seq<Group<nat>>>, hi: int)
    requires BatchesOf(pushed, lo, batches) && hi == lo + |batches| && batches == front + [last]
    ensures BatchesOf(pushed, lo, front) && last == WithTarget(pushed, hi - 1)
  {
    assert batches[|front|] == last;
    assert forall i :: 0 <= i < |front| ==> batches[i] == front[i];
  }

  lemma NoBatch(pushed: seq<Group<nat>>, lo: int, batches: seq<seq<Group<nat>>>, hi: int)
    requires batches == [] && hi == lo && forall g :: g in pushed ==> lo <= g.target
    ensures Partitions(pushed, batches, hi)
  {
    AllFrom(pushed, lo);
  }

  lemma NextBatch(pushed: seq<Group<nat>>, front: seq<seq<Group<nat>>>, last: seq<Group<nat>>,
                  batches: seq<seq<Group<nat>>>, hi: int)
    requires Partitions(pushed, front, hi - 1)
    requires last == WithTarget(pushed, hi - 1) && batches == front + [last]
    ensures Partitions(pushed, batches, hi)
  {
    FlattenSnoc(front, last);
    SplitTarget(pushed, hi);
    TakeBatch(pushed, Flatten(front), last, FromTarget(pushed, hi - 1), FromTarget(pushed, hi),
              Flatten(batches));
  }

  lemma TakeBatch<T>(all: seq<T>, before: seq<T>, batch: seq<T>, rest: seq<T>, rest': seq<T>, after: seq<T>)
    requires multiset(all) == multiset(before) + multiset(rest) && after == before + batch
    requires multiset(rest) == multiset(batch) + multiset(rest')
    ensures multiset(all) == multiset(after) + multiset(rest')
  {}

  lemma {:induction false} AllFrom(s: seq<Group<nat>>, lo: int)
    requires forall g :: g in s ==> lo <= g.target
    ensures FromTarget(s, lo) == s
  {
    if s != [] {
      AllFrom(s[..|s| - 1], lo);
      assert s[|s| - 1] in s;
    }
  }

  lemma {:induction false} SplitTarget(s: seq<Group<nat>>, t: int)
    ensures multiset(FromTarget(s, t - 1)) == multiset(WithTarget(s, t - 1)) + multiset(FromTarget(s, t))
  {
    if s != [] { SplitTarget(s[..|s| - 1], t); }
  }

  /** Conservation and order: the batch of step `v` is the whole sequence of groups pushed
      for target `v`, `n` of them in push order; the buffer is what was pushed for later
      targets; and every pushed group is in exactly one of these places. */
  lemma EveryGroupTrainedOnce(cfg: Config, s: State)
    requires cfg.Valid() && SafelyReachable(cfg, s)
    ensures BatchesOf(s.pushed, cfg.start, s.trained)
    ensures |s.trained| == Untrained(s) - cfg.start
    ensures forall batch :: batch in s.trained ==> |batch| == cfg.n
    ensures s.buffer.groups == FromTarget(s.pushed, Untrained(s))
    ensures multiset(s.pushed)
         == multiset(Flatten(s.trained)) + multiset(s.buffer.groups)
  {
    ReachableInv(cfg, s);
    PushedFromStart(cfg, s);
    TrainedBatches(cfg, s);
    HistoryConserves(cfg, s);
  }

  /** What a training step is given: the `n` trajectories pushed for the trainer's version,
      one each and in push order. */
  lemma StepTrainsOnItsPushes(cfg: Config, s: State)
    requires cfg.Valid() && SafelyReachable(cfg, s) && s.trainer.Waiting? && SampleReply(cfg, s).Batch?
    ensures var given, pushed := SampleReply(cfg, s).trajectories, WithTarget(s.pushed, s.version);
            && |given| == |pushed| == cfg.n
            && (forall i :: 0 <= i < cfg.n ==> given[i] == pushed[i].trajectory)
            && Do(cfg, s, Sample).trained == s.trained + [pushed]
  {
    ReachableInv(cfg, s);
    SampleTakesExactlyTheStep(cfg, s);
    BatchIsOldestIntended(s.buffer.groups, cfg.n, s.version, cfg.age);
    SampleIsFifo(s.buffer.groups, cfg.n, s.version, cfg.age);
  }

  function PushesFor(s: seq<Group<nat>>, t: int): (p: seq<nat>)
    ensures forall i :: 0 <= i < |p| ==> p[i] < |s|
    ensures forall k: nat :: k < |s| ==> (k in p <==> s[k].target == t)
  {
    if s == [] then []
    else PushesFor(s[..|s| - 1], t) + if s[|s| - 1].target == t then [|s| - 1] else []
  }

  /** `WithTarget` is what it says: the groups aimed at `t`, in push order. */
  lemma {:induction false} WithTargetExactly(s: seq<Group<nat>>, t: int)
    ensures |WithTarget(s, t)| == |PushesFor(s, t)| && Before(PushesFor(s, t))
    ensures forall i :: 0 <= i < |PushesFor(s, t)| ==> WithTarget(s, t)[i] == s[PushesFor(s, t)[i]]
  {
    if s != [] { WithTargetExactly(s[..|s| - 1], t); }
  }

  lemma TrainedBatches(cfg: Config, s: State)
    requires History(cfg, s)
    ensures BatchesOf(s.pushed, cfg.start, s.trained)
    ensures forall batch :: batch in s.trained ==> |batch| == cfg.n
  {
    forall i | 0 <= i < |s.trained|
      ensures s.trained[i] == WithTarget(s.pushed, cfg.start + i)
      ensures |s.trained[i]| == cfg.n
    {
      assert TrainedAt(cfg, s, i);
    }
  }

  lemma PushedFromStart(cfg: Config, s: State)
    requires cfg.Valid() && Inv(cfg, s)
    ensures forall g :: g in s.pushed ==> cfg.start <= g.target
  {}

  lemma HistoryConserves(cfg: Config, s: State)
    requires History(cfg, s) && forall g :: g in s.pushed ==> cfg.start <= g.target
    ensures multiset(s.pushed) == multiset(Flatten(s.trained)) + multiset(s.buffer.groups)
  {
    TrainedBatches(cfg, s);
    StepsPartition(s.pushed, cfg.start, s.trained, Untrained(s));
  }
}
