/** Safety of the asynchronous protocol: the invariant and what follows from it. */
module AsyncSafety {
  import opened Lists
  import opened ReplayBuffers
  import opened Collectors
  import opened AsyncProtocol

  lemma InitInv(cfg: Config)
    requires cfg.Valid()
    ensures Inv(cfg, Init(cfg))
  {}

  // ---------------------------------------------------------------- steps that leave a part alone

  lemma GroupsFrame(cfg: Config, s: State, s': State)
    requires Groups(cfg, s) && s'.pushed == s.pushed && s'.workers == s.workers
    requires s'.buffer.lastTarget == s.buffer.lastTarget && s.known <= s'.known
    requires forall t :: t in s.reserved ==> t in s'.reserved
    ensures Groups(cfg, s')
  {}

  lemma CountsFrame(cfg: Config, s: State, s': State)
    requires Counts(cfg, s) && s'.pushed == s.pushed && s'.workers == s.workers
    requires forall t :: Spawned(cfg, s, t) <= Spawned(cfg, s', t)
    ensures Counts(cfg, s')
  {
    forall t ensures CountAt(cfg, s', t) {
      assert CountAt(cfg, s, t);
    }
  }

  lemma HistoryFrame(cfg: Config, s: State, s': State)
    requires History(cfg, s) && s'.pushed == s.pushed && s'.trained == s.trained
    requires s'.buffer.groups == s.buffer.groups && Untrained(s') == Untrained(s)
    ensures History(cfg, s')
  {
    forall i | 0 <= i < |s'.trained| ensures TrainedAt(cfg, s', i) {
      assert TrainedAt(cfg, s, i);
    }
  }

  /** A step that touches neither groups nor workers nor their history. */
  lemma QuietFrame(cfg: Config, s: State, s': State)
    requires Groups(cfg, s) && Counts(cfg, s) && History(cfg, s)
    requires s'.pushed == s.pushed && s'.workers == s.workers && s'.trained == s.trained && s'.buffer == s.buffer
    requires s'.reserved == s.reserved && s.known <= s'.known && Untrained(s') == Untrained(s)
    requires forall t :: Spawned(cfg, s, t) <= Spawned(cfg, s', t)
    ensures Groups(cfg, s') && Counts(cfg, s') && History(cfg, s')
  {
    GroupsFrame(cfg, s, s');
    CountsFrame(cfg, s, s');
    HistoryFrame(cfg, s, s');
  }

  // ---------------------------------------------------------------- collector steps

  lemma BeginKeepsInv(cfg: Config, s: State)
    requires cfg.Valid() && Inv(cfg, s) && s.phase.Idle?
    ensures Inv(cfg, Do(cfg, s, Begin))
  {
    QuietFrame(cfg, s, Do(cfg, s, Begin));
    BeginReservations(cfg, s);
  }

  lemma BeginReservations(cfg: Config, s: State)
    requires cfg.Valid() && Versions(cfg, s) && Reservations(cfg, s) && s.phase.Idle?
    ensures Versions(cfg, Do(cfg, s, Begin)) && Reservations(cfg, Do(cfg, s, Begin))
  {}

  lemma ReadLastKeepsInv(cfg: Config, s: State)
    requires cfg.Valid() && Inv(cfg, s) && s.phase.Begun?
    ensures Inv(cfg, Do(cfg, s, ReadLast))
  {
    QuietFrame(cfg, s, Do(cfg, s, ReadLast));
    ReadLastReservations(cfg, s);
  }

  lemma ReadLastReservations(cfg: Config, s: State)
    requires cfg.Valid() && Versions(cfg, s) && Reservations(cfg, s) && s.phase.Begun?
    ensures Versions(cfg, Do(cfg, s, ReadLast)) && Reservations(cfg, Do(cfg, s, ReadLast))
  {}

  lemma DeliverKeepsInv(cfg: Config, s: State)
    requires cfg.Valid() && Inv(cfg, s) && s.known < s.version
    ensures Inv(cfg, Do(cfg, s, Deliver))
  {
    QuietFrame(cfg, s, Do(cfg, s, Deliver));
    DeliverReservations(cfg, s);
  }

  lemma DeliverReservations(cfg: Config, s: State)
    requires cfg.Valid() && Versions(cfg, s) && Reservations(cfg, s) && s.known < s.version
    ensures Versions(cfg, Do(cfg, s, Deliver)) && Reservations(cfg, Do(cfg, s, Deliver))
  {}

  lemma BumpKeepsInv(cfg: Config, s: State)
    requires cfg.Valid() && Inv(cfg, s) && s.trainer.Training?
    ensures Inv(cfg, Do(cfg, s, Bump))
  {
    QuietFrame(cfg, s, Do(cfg, s, Bump));
    BumpReservations(cfg, s);
  }

  lemma BumpReservations(cfg: Config, s: State)
    requires cfg.Valid() && Versions(cfg, s) && Reservations(cfg, s) && s.trainer.Training?
    ensures Versions(cfg, Do(cfg, s, Bump)) && Reservations(cfg, Do(cfg, s, Bump))
  {}

  /** Everything already trained on was reserved. */
  lemma TrainedWasReserved(cfg: Config, s: State, t: int)
    requires cfg.Valid() && Inv(cfg, s) && cfg.start <= t < Untrained(s)
    ensures t in s.reserved && |WithTarget(s.pushed, t)| == cfg.n && Flying(s.workers, t) == 0
  {
    assert TrainedAt(cfg, s, t - cfg.start);
    assert CountAt(cfg, s, t);
  }

  /** A reservation made from an invariant state is for a target above all earlier ones
      and not yet trained on. */
  lemma ReservationIsFresh(cfg: Config, s: State)
    requires cfg.Valid() && Inv(cfg, s) && s.phase.Checking? && DoReserve(cfg, s).phase.Spawning?
    ensures var t := DoReserve(cfg, s).phase.target;
            && Lowest(cfg.start, s.phase.gen) <= t <= s.phase.gen + cfg.age
            && t !in s.reserved && t >= Untrained(s)
            && (forall u :: u in s.reserved ==> u < t)
            && (forall x :: Lowest(cfg.start, s.phase.gen) <= x < t ==> x in s.reserved)
  {
    NextTargetIsLeast(cfg.start, s.phase.gen, cfg.age, s.phase.last, s.generating);
    var t := DoReserve(cfg, s).phase.target;
    assert t !in s.reserved;
    if t < Untrained(s) {
      TrainedWasReserved(cfg, s, t);
    }
    forall x | Lowest(cfg.start, s.phase.gen) <= x < t ensures x in s.reserved {
      assert !NeedsGeneration(x, s.phase.last, s.generating);
    }
  }

  lemma IncreasingSnoc(r: seq<int>, t: int)
    requires Increasing(r) && forall u :: u in r ==> u < t
    ensures Increasing(r + [t])
  {
    forall i, j | 0 <= i < j < |r| + 1 ensures (r + [t])[i] < (r + [t])[j] {
      assert r[i] in r;
    }
  }

  lemma ReserveKeepsInv(cfg: Config, s: State)
    requires cfg.Valid() && Inv(cfg, s) && s.phase.Checking?
    ensures Inv(cfg, Do(cfg, s, Reserve))
  {
    var s' := DoReserve(cfg, s);
    if s'.phase.Spawning? {
      ReserveReservations(cfg, s);
      ReserveCounts(cfg, s);
      GroupsFrame(cfg, s, s');
      HistoryFrame(cfg, s, s');
    } else {
      QuietFrame(cfg, s, s');
      NoReservation(cfg, s);
    }
  }

  lemma NoReservation(cfg: Config, s: State)
    requires cfg.Valid() && Versions(cfg, s) && Reservations(cfg, s)
    requires s.phase.Checking? && !DoReserve(cfg, s).phase.Spawning?
    ensures Versions(cfg, DoReserve(cfg, s)) && Reservations(cfg, DoReserve(cfg, s))
  {
    NextTargetIsLeast(cfg.start, s.phase.gen, cfg.age, s.phase.last, s.generating);
  }

  lemma ReserveReservations(cfg: Config, s: State)
    requires cfg.Valid() && Inv(cfg, s) && s.phase.Checking? && DoReserve(cfg, s).phase.Spawning?
    ensures Versions(cfg, DoReserve(cfg, s)) && Reservations(cfg, DoReserve(cfg, s))
  {
    ReservationIsFresh(cfg, s);
    IncreasingSnoc(s.reserved, DoReserve(cfg, s).phase.target);
    AfterReservation(cfg, s, DoReserve(cfg, s).phase.target);
  }

  lemma AfterReservation(cfg: Config, s: State, t: int)
    requires cfg.Valid() && Versions(cfg, s) && Reservations(cfg, s) && s.phase.Checking?
    requires DoReserve(cfg, s).phase == Spawning(s.phase.gen, t, 0)
    requires Increasing(s.reserved + [t]) && cfg.start <= t <= s.phase.gen + cfg.age
    requires forall x :: Lowest(cfg.start, s.phase.gen) <= x < t ==> x in s.reserved
    ensures Versions(cfg, DoReserve(cfg, s)) && Reservations(cfg, DoReserve(cfg, s))
  {}

  lemma ReserveCounts(cfg: Config, s: State)
    requires cfg.Valid() && Inv(cfg, s) && s.phase.Checking? && DoReserve(cfg, s).phase.Spawning?
    ensures Counts(cfg, DoReserve(cfg, s))
  {
    ReservationIsFresh(cfg, s);
    CountsFrame(cfg, s, DoReserve(cfg, s));
  }

  /** The target being spawned has not been trained on: some of its prompts have not started. */
  lemma SpawningIsUntrained(cfg: Config, s: State)
    requires cfg.Valid() && Inv(cfg, s) && s.phase.Spawning?
    ensures Untrained(s) <= s.phase.target
  {
    assert CountAt(cfg, s, s.phase.target);
    if s.phase.target < Untrained(s) {
      TrainedWasReserved(cfg, s, s.phase.target);
    }
  }

  lemma RefreshKeepsInv(cfg: Config, s: State)
    requires cfg.Valid() && Inv(cfg, s) && s.phase.Spawning?
    ensures Inv(cfg, Do(cfg, s, RefreshVersion))
  {
    SpawningIsUntrained(cfg, s);
    QuietFrame(cfg, s, Do(cfg, s, RefreshVersion));
    RefreshReservations(cfg, s);
  }

  lemma RefreshReservations(cfg: Config, s: State)
    requires cfg.Valid() && Versions(cfg, s) && Reservations(cfg, s) && s.phase.Spawning?
    ensures Versions(cfg, Do(cfg, s, RefreshVersion)) && Reservations(cfg, Do(cfg, s, RefreshVersion))
  {}

  lemma SpawnKeepsInv(cfg: Config, s: State)
    requires cfg.Valid() && Inv(cfg, s) && Enabled(cfg, s, Spawn)
    ensures Inv(cfg, Do(cfg, s, Spawn))
  {
    SpawningIsUntrained(cfg, s);
    SpawnReservations(cfg, s);
    SpawnCounts(cfg, s);
    SpawnGroups(cfg, s);
    HistoryFrame(cfg, s, DoSpawn(cfg, s));
  }

  lemma SpawnReservations(cfg: Config, s: State)
    requires cfg.Valid() && Versions(cfg, s) && Reservations(cfg, s) && Enabled(cfg, s, Spawn)
    ensures Versions(cfg, DoSpawn(cfg, s)) && Reservations(cfg, DoSpawn(cfg, s))
  {}

  lemma SpawnGroups(cfg: Config, s: State)
    requires cfg.Valid() && Versions(cfg, s) && Groups(cfg, s) && Enabled(cfg, s, Spawn)
    requires Untrained(s) <= s.phase.target
    ensures Groups(cfg, DoSpawn(cfg, s))
  {
    var wk := Worker(s.phase.gen, s.phase.target, s.phase.next, false);
    assert forall x :: x in DoSpawn(cfg, s).workers ==> x in s.workers || x == wk;
  }

  lemma SpawnCounts(cfg: Config, s: State)
    requires cfg.Valid() && Versions(cfg, s) && Counts(cfg, s) && Enabled(cfg, s, Spawn)
    ensures Counts(cfg, DoSpawn(cfg, s))
  {
    var s' := DoSpawn(cfg, s);
    assert s'.workers[..|s'.workers| - 1] == s.workers;
    forall t ensures CountAt(cfg, s', t) {
      assert CountAt(cfg, s, t);
    }
  }

  // ---------------------------------------------------------------- worker steps

  lemma PushKeepsInv(cfg: Config, s: State, k: nat)
    requires cfg.Valid() && Inv(cfg, s) && Enabled(cfg, s, Push(k))
    ensures Inv(cfg, Do(cfg, s, Push(k)))
  {
    if PushStatusOf(s.buffer) == Success {
      PushedIsUntrained(cfg, s, k);
      PushCounts(cfg, s, k);
      PushHistory(cfg, s, k);
      PushGroups(cfg, s, k);
      PushReservations(cfg, s, k);
    }
  }

  lemma PushCounts(cfg: Config, s: State, k: nat)
    requires cfg.Valid() && Counts(cfg, s) && Enabled(cfg, s, Push(k)) && PushStatusOf(s.buffer) == Success
    ensures Counts(cfg, DoPush(s, k))
  {
    var s', wk := DoPush(s, k), s.workers[k];
    forall t ensures CountAt(cfg, s', t) {
      WithTargetSnoc(s.pushed, Group(wk.prompt, wk.version, wk.target), t);
      FlyingWithout(s.workers, k, t);
      FlyingAt(s.workers, k, wk.(pushed := true), t);
      assert CountAt(cfg, s, t);
    }
  }

  lemma PushHistory(cfg: Config, s: State, k: nat)
    requires cfg.Valid() && History(cfg, s) && Enabled(cfg, s, Push(k)) && PushStatusOf(s.buffer) == Success
    requires Untrained(s) <= s.workers[k].target
    ensures History(cfg, DoPush(s, k))
  {
    var s', wk := DoPush(s, k), s.workers[k];
    var g := Group(wk.prompt, wk.version, wk.target);
    FromTargetSnoc(s.pushed, g, Untrained(s));
    forall i | 0 <= i < |s'.trained| ensures TrainedAt(cfg, s', i) {
      WithTargetSnoc(s.pushed, g, cfg.start + i);
      assert TrainedAt(cfg, s, i);
    }
  }

  lemma PushGroups(cfg: Config, s: State, k: nat)
    requires cfg.Valid() && Groups(cfg, s) && Enabled(cfg, s, Push(k)) && PushStatusOf(s.buffer) == Success
    ensures Groups(cfg, DoPush(s, k))
  {
    var s', wk := DoPush(s, k), s.workers[k];
    assert wk in s.workers;
    assert forall x :: x in s'.workers ==> x in s.workers || x == wk.(pushed := true);
  }

  lemma PushReservations(cfg: Config, s: State, k: nat)
    requires cfg.Valid() && Versions(cfg, s) && Reservations(cfg, s)
    requires Enabled(cfg, s, Push(k)) && PushStatusOf(s.buffer) == Success && s.workers[k].target in s.reserved
    ensures Versions(cfg, DoPush(s, k)) && Reservations(cfg, DoPush(s, k))
  {
    assert s.buffer.lastTarget <= DoPush(s, k).buffer.lastTarget;
  }

  /** A group still to be pushed is for a step that has not been trained. */
  lemma PushedIsUntrained(cfg: Config, s: State, k: nat)
    requires cfg.Valid() && Inv(cfg, s) && Enabled(cfg, s, Push(k))
    ensures Untrained(s) <= s.workers[k].target
  {
    var t := s.workers[k].target;
    FlyingWithout(s.workers, k, t);
    assert s.workers[k] in s.workers && CountAt(cfg, s, t);
    if t < Untrained(s) {
      TrainedWasReserved(cfg, s, t);
    }
  }

  /** Giving up a reservation that is not exposed. */
  lemma UnmarkReservations(cfg: Config, s: State, t: int, workers: seq<Worker>)
    requires cfg.Valid() && Versions(cfg, s) && Reservations(cfg, s) && !Exposes(cfg, s, t) && |workers| <= |s.workers|
    ensures var s' := s.(generating := s.generating - {t}, workers := workers);
            Versions(cfg, s') && Reservations(cfg, s')
  {}

  lemma ReleaseKeepsInv(cfg: Config, s: State, k: nat)
    requires cfg.Valid() && Inv(cfg, s) && Enabled(cfg, s, Release(k)) && Clean(cfg, s, Release(k))
    ensures Inv(cfg, Do(cfg, s, Release(k)))
  {
    UnmarkReservations(cfg, s, s.workers[k].target, s.workers);
    QuietFrame(cfg, s, Do(cfg, s, Release(k)));
  }

  lemma LeaveKeepsInv(cfg: Config, s: State, k: nat)
    requires cfg.Valid() && Inv(cfg, s) && k < |s.workers| && !Exposes(cfg, s, s.workers[k].target)
    ensures Inv(cfg, s.(generating := s.generating - {s.workers[k].target}, workers := Dropped(s.workers, k)))
  {
    var s' := s.(generating := s.generating - {s.workers[k].target}, workers := Dropped(s.workers, k));
    UnmarkReservations(cfg, s, s.workers[k].target, Dropped(s.workers, k));
    forall t ensures CountAt(cfg, s', t) {
      FlyingWithout(s.workers, k, t);
      assert CountAt(cfg, s, t);
    }
    LeaveGroups(cfg, s, k, s');
    HistoryFrame(cfg, s, s');
  }

  lemma LeaveGroups(cfg: Config, s: State, k: nat, s': State)
    requires Groups(cfg, s) && k < |s.workers| && s'.workers == Dropped(s.workers, k)
    requires s'.pushed == s.pushed && s'.reserved == s.reserved && s'.buffer == s.buffer && s'.known == s.known
    ensures Groups(cfg, s')
  {
    assert forall x :: x in s'.workers ==> x in s.workers;
  }

  // ---------------------------------------------------------------- the trainer's step

  lemma {:induction false} FromTargetMembers(s: seq<Group<nat>>, lo: int)
    ensures forall g :: g in FromTarget(s, lo) ==> g in s && g.target >= lo
  {
    if s != [] { FromTargetMembers(s[..|s| - 1], lo); }
  }

  /** When every group is inside the age window, the age filter removes nothing and the
      intended groups are those of the trainer's version. */
  lemma {:induction false} IntendedByTarget(s: seq<Group<nat>>, w: int, maxAge: int)
    requires forall g :: g in FromTarget(s, w) ==> InWindow(g, w, maxAge)
    ensures IntendedOf(FromTarget(s, w), w, maxAge) == WithTarget(s, w)
    ensures OthersOf(FromTarget(s, w), w, maxAge) == FromTarget(s, w + 1)
  {
    if s != [] {
      var m := |s| - 1;
      var rest := FromTarget(s[..m], w);
      assert forall g :: g in rest ==> g in FromTarget(s, w);
      IntendedByTarget(s[..m], w, maxAge);
      FilterSnoc(rest, s[m], w, maxAge);
      if s[m].target >= w {
        assert FromTarget(s, w) == rest + [s[m]];
        assert s[m] in FromTarget(s, w);
        assert Intended(s[m], w, maxAge) <==> s[m].target == w;
      } else {
        assert FromTarget(s, w) == rest;
      }
    }
  }

  lemma {:induction false} NoneIntended<T>(s: seq<Group<T>>, w: int, maxAge: int)
    requires IntendedOf(s, w, maxAge) == []
    ensures OthersOf(s, w, maxAge) == s
  {
    if s != [] {
      var rest, g := s[..|s| - 1], s[|s| - 1];
      assert s == rest + [g];
      FilterSnoc(rest, g, w, maxAge);
      NoneIntended(rest, w, maxAge);
    }
  }

  lemma BufferInWindow(cfg: Config, s: State)
    requires cfg.Valid() && Inv(cfg, s)
    ensures forall g :: g in s.buffer.groups ==>
              && g in s.pushed && Untrained(s) <= g.target <= s.known + cfg.age
              && InWindow(g, s.version, cfg.age)
  {
    FromTargetMembers(s.pushed, Untrained(s));
  }

  /** Sampling from an invariant state never finds a stale group, and when it takes a batch
      it takes all groups of the trainer's version and leaves all others. */
  lemma SampleTakesExactlyTheStep(cfg: Config, s: State)
    requires cfg.Valid() && Inv(cfg, s) && s.trainer.Waiting?
    ensures SampleReply(cfg, s).NothingYet? || SampleReply(cfg, s).Batch?
    ensures CountInWindow(s.buffer.groups, s.version, cfg.age) == |s.buffer.groups|
    ensures SampleReply(cfg, s).Batch? ==>
              && Selected(s.buffer.groups, cfg.n, s.version, cfg.age) == WithTarget(s.pushed, s.version)
              && |WithTarget(s.pushed, s.version)| == cfg.n
              && Remaining(s.buffer.groups, cfg.n, s.version, cfg.age) == FromTarget(s.pushed, s.version + 1)
  {
    BufferInWindow(cfg, s);
    assert CountAt(cfg, s, s.version);
    if SampleReply(cfg, s).Batch? {
      SampleSplits(s.pushed, s.buffer.groups, cfg.n, s.version, cfg.age);
    }
  }

  /** A batch sampled from groups of the trainer's version and later, all in the window, of
      which at most `n` are for this version. */
  lemma SampleSplits(pushed: seq<Group<nat>>, groups: seq<Group<nat>>, n: nat, w: int, maxAge: int)
    requires groups == FromTarget(pushed, w) && (forall g :: g in groups ==> InWindow(g, w, maxAge))
    requires ReplyTo(groups, n, w, maxAge).Batch? && |WithTarget(pushed, w)| <= n
    ensures Selected(groups, n, w, maxAge) == WithTarget(pushed, w) && |WithTarget(pushed, w)| == n
    ensures Remaining(groups, n, w, maxAge) == FromTarget(pushed, w + 1)
  {
    SampleIsFifo(groups, n, w, maxAge);
    IntendedByTarget(pushed, w, maxAge);
    var chosen, rest := Selected(groups, n, w, maxAge), Remaining(groups, n, w, maxAge);
    assert WithTarget(pushed, w) == chosen + IntendedOf(rest, w, maxAge);
    NoneIntended(rest, w, maxAge);
  }

  lemma SampleKeepsInv(cfg: Config, s: State)
    requires cfg.Valid() && Inv(cfg, s) && s.trainer.Waiting?
    ensures Inv(cfg, Do(cfg, s, Sample))
  {
    SampleTakesExactlyTheStep(cfg, s);
    if SampleReply(cfg, s).Batch? {
      SampleHistory(cfg, s);
      SampleReservations(cfg, s);
      GroupsFrame(cfg, s, DoSample(cfg, s));
      CountsFrame(cfg, s, DoSample(cfg, s));
    }
  }

  lemma SampleReservations(cfg: Config, s: State)
    requires cfg.Valid() && Versions(cfg, s) && Reservations(cfg, s) && s.trainer.Waiting? && SampleReply(cfg, s).Batch?
    ensures Versions(cfg, DoSample(cfg, s)) && Reservations(cfg, DoSample(cfg, s))
  {}

  lemma SampleHistory(cfg: Config, s: State)
    requires cfg.Valid() && History(cfg, s) && s.trainer.Waiting? && SampleReply(cfg, s).Batch?
    requires Selected(s.buffer.groups, cfg.n, s.version, cfg.age) == WithTarget(s.pushed, s.version)
    requires |WithTarget(s.pushed, s.version)| == cfg.n
    requires Remaining(s.buffer.groups, cfg.n, s.version, cfg.age) == FromTarget(s.pushed, s.version + 1)
    ensures History(cfg, DoSample(cfg, s))
  {
    var s' := DoSample(cfg, s);
    forall i | 0 <= i < |s'.trained| ensures TrainedAt(cfg, s', i) {
      if i < |s.trained| { assert TrainedAt(cfg, s, i); }
    }
  }

  // ---------------------------------------------------------------- every run

  lemma StepKeepsInv(cfg: Config, s: State, step: Step)
    requires cfg.Valid() && Inv(cfg, s) && Enabled(cfg, s, step) && Clean(cfg, s, step)
    ensures Inv(cfg, Do(cfg, s, step))
  {
    match step
    case Begin => BeginKeepsInv(cfg, s);
    case ReadLast => ReadLastKeepsInv(cfg, s);
    case Reserve => ReserveKeepsInv(cfg, s);
    case RefreshVersion => RefreshKeepsInv(cfg, s);
    case Spawn => SpawnKeepsInv(cfg, s);
    case Push(k) => PushKeepsInv(cfg, s, k);
    case Release(k) => ReleaseKeepsInv(cfg, s, k);
    case Finish(k) => LeaveKeepsInv(cfg, s, k);
    case Fail(k) => LeaveKeepsInv(cfg, s, k);
    case Sample => SampleKeepsInv(cfg, s);
    case Bump => BumpKeepsInv(cfg, s);
    case Deliver => DeliverKeepsInv(cfg, s);
  }

  lemma {:induction false} RunKeepsInv(cfg: Config, a: State, steps: seq<Step>, b: State)
    requires cfg.Valid() && Inv(cfg, a) && CleanReaches(cfg, a, steps, b)
    ensures Inv(cfg, b)
    decreases |steps|
  {
    if steps != [] {
      StepKeepsInv(cfg, a, steps[0]);
      RunKeepsInv(cfg, Do(cfg, a, steps[0]), steps[1..], b);
    }
  }

  /** The invariant holds in every state of every clean run. */
  lemma ReachableInv(cfg: Config, s: State)
    requires cfg.Valid() && SafelyReachable(cfg, s)
    ensures Inv(cfg, s)
  {
    InitInv(cfg);
    var steps :| CleanReaches(cfg, Init(cfg), steps, s);
    RunKeepsInv(cfg, Init(cfg), steps, s);
  }
}
