/** Where the asynchronous protocol leaves the safe states: the exact condition under which
    a reservation is repeated, a run in which that crashes the trainer, and targets that
    are passed over. */
module AsyncRaces {
  import opened Lists
  import opened ReplayBuffers
  import opened Collectors
  import opened AsyncProtocol
  import opened AsyncSafety

  // ---------------------------------------------------------------- repeated reservations

  /** The collection thread runs on, undisturbed, to the end of its next reservation attempt.
      Workers it still has to start make no difference to that (`SpawnIsNeutral`). */
  function NextAttempt(cfg: Config, s: State): State
    requires cfg.Valid()
  {
    match s.phase
    case Idle => Do(cfg, Do(cfg, Do(cfg, s, Begin), ReadLast), Reserve)
    case Begun(_) => Do(cfg, Do(cfg, s, ReadLast), Reserve)
    case Checking(_, _) => Do(cfg, s, Reserve)
    case Spawning(_, _, _) => Do(cfg, Do(cfg, Do(cfg, s.(phase := Idle), Begin), ReadLast), Reserve)
  }

  lemma SpawnIsNeutral(cfg: Config, s: State)
    requires cfg.Valid() && Enabled(cfg, s, Spawn)
    ensures NextAttempt(cfg, Do(cfg, s, Spawn)).phase == NextAttempt(cfg, s).phase
    ensures NextAttempt(cfg, Do(cfg, s, Spawn)).reserved == NextAttempt(cfg, s).reserved
  {}

  predicate IsRepeat(before: State, after: State) {
    after.phase.Spawning? && after.phase.target in before.reserved
  }

  /** From any safe state and for any step of any thread, the collector's next attempt after
      the step reserves an already reserved target if and only if the step is not clean: a
      worker has given up the reservation of a target that is still marked, above what the
      collector has read as last generated, and not below the collector's window. */
  lemma RepeatIffExposed(cfg: Config, s: State, step: Step)
    requires cfg.Valid() && Inv(cfg, s) && Enabled(cfg, s, step)
    ensures IsRepeat(s, NextAttempt(cfg, Do(cfg, s, step))) <==> !Clean(cfg, s, step)
  {
    if Clean(cfg, s, step) {
      StepKeepsInv(cfg, s, step);
      AttemptIsFresh(cfg, Do(cfg, s, step));
      ReservedStays(cfg, s, step);
    } else {
      ExposedIsTaken(cfg, s, step, s.workers[step.k].target);
    }
  }

  lemma ReservedStays(cfg: Config, s: State, step: Step)
    requires cfg.Valid() && Enabled(cfg, s, step)
    ensures forall t :: t in s.reserved ==> t in Do(cfg, s, step).reserved
  {}

  lemma FinishStartingKeepsInv(cfg: Config, s: State)
    requires cfg.Valid() && Inv(cfg, s) && s.phase.Spawning?
    ensures Inv(cfg, s.(phase := Idle))
  {
    QuietFrame(cfg, s, s.(phase := Idle));
  }

  lemma AttemptIsFresh(cfg: Config, s: State)
    requires cfg.Valid() && Inv(cfg, s)
    ensures !IsRepeat(s, NextAttempt(cfg, s))
    decreases match s.phase case Spawning(_, _, _) => 3 case Idle => 2 case Begun(_) => 1 case Checking(_, _) => 0
  {
    match s.phase
    case Spawning(_, _, _) =>
      FinishStartingKeepsInv(cfg, s);
      AttemptIsFresh(cfg, s.(phase := Idle));
    case Idle =>
      BeginKeepsInv(cfg, s);
      AttemptIsFresh(cfg, Do(cfg, s, Begin));
    case Begun(_) =>
      ReadLastKeepsInv(cfg, s);
      AttemptIsFresh(cfg, Do(cfg, s, ReadLast));
    case Checking(_, _) =>
      if DoReserve(cfg, s).phase.Spawning? { ReservationIsFresh(cfg, s); }
  }

  /** Giving up the exposed target `t`: the next attempt finds a target no later than `t`
      that needs generation, and all of those are reserved. */
  lemma ExposedIsTaken(cfg: Config, s: State, step: Step, t: int)
    requires cfg.Valid() && Inv(cfg, s) && Enabled(cfg, s, step) && !Clean(cfg, s, step)
    requires t == s.workers[step.k].target
    ensures IsRepeat(s, NextAttempt(cfg, Do(cfg, s, step)))
  {
    var left := s.generating - {t};
    assert t in s.reserved;
    assert NeedsGeneration(t, Seen(s), left);
    NextTargetIsLeast(cfg.start, Gen(s), cfg.age, Seen(s), left);
    var u := FirstNeeding(TargetWindow(cfg.start, Gen(s), cfg.age), Seen(s), left).value;
    assert u <= t;
    assert NextAttempt(cfg, Do(cfg, s, step)).phase == Spawning(Gen(s), u, 0);
  }

  // ---------------------------------------------------------------- a run that goes wrong

  lemma CleanLink(cfg: Config, a: State, step: Step, mid: State, rest: seq<Step>, b: State)
    requires cfg.Valid() && Enabled(cfg, a, step) && Clean(cfg, a, step) && Do(cfg, a, step) == mid
    requires CleanReaches(cfg, mid, rest, b)
    ensures CleanReaches(cfg, a, [step] + rest, b)
  {
    assert ([step] + rest)[1..] == rest;
  }

  /** One prompt per step, age window one, trained from version 0. */
  const SMALLEST := Config(1, 1, 0)
  const EARLY := Group(0 as nat, 0, 0)   // generated and aimed at version 0
  const LATE := Group(0 as nat, 0, 1)    // generated at version 0, aimed at version 1

  lemma SmallestWindow()
    ensures TargetWindow(0, 0, 1) == [0, 1]
  {
    assert Iota(0, 2) == [0, 1];
  }

  /** Target 0 is reserved and its worker started; the collector starts on its next batch
      and reads the last generated target before that worker pushes. */
  lemma UpToRace(a: State, b: State)
    requires a == Init(SMALLEST)
    requires b == State(0, 0, Waiting, Checking(0, -1), {0}, [Worker(0, 0, 0, true)], Buffer(2, [EARLY], 0),
                        [0], [EARLY], [])
    ensures CleanReaches(SMALLEST, a, [Begin, ReadLast, Reserve, Spawn, Begin, ReadLast, Push(0)], b)
  {
    var cfg := SMALLEST;
    SmallestWindow();
    var s1 := a.(phase := Begun(0));
    var s2 := a.(phase := Checking(0, -1));
    var s3 := a.(phase := Spawning(0, 0, 0), generating := {0}, reserved := [0]);
    var s4 := s3.(phase := Idle, workers := [Worker(0, 0, 0, false)]);
    var s5 := s4.(phase := Begun(0));
    var s6 := s4.(phase := Checking(0, -1));
    CleanLink(cfg, s6, Push(0), b, [], b);
    CleanLink(cfg, s5, ReadLast, s6, [Push(0)], b);
    CleanLink(cfg, s4, Begin, s5, [ReadLast, Push(0)], b);
    CleanLink(cfg, s3, Spawn, s4, [Begin, ReadLast, Push(0)], b);
    CleanLink(cfg, s2, Reserve, s3, [Spawn, Begin, ReadLast, Push(0)], b);
    CleanLink(cfg, s1, ReadLast, s2, [Reserve, Spawn, Begin, ReadLast, Push(0)], b);
    CleanLink(cfg, a, Begin, s1, [ReadLast, Reserve, Spawn, Begin, ReadLast, Push(0)], b);
  }

  lemma SampleEarlyTwice()
    ensures ReplyTo([EARLY, EARLY], 1, 0, 1).Batch?
    ensures Selected([EARLY, EARLY], 1, 0, 1) == [EARLY] && Remaining([EARLY, EARLY], 1, 0, 1) == [EARLY]
  {
    var s := [EARLY, EARLY];
    assert s[..1] == [EARLY] && [EARLY][..0] == [];
    assert IntendedPositions([EARLY], 0, 1) == [0];
    assert IntendedPositions(s, 0, 1) == [0, 1];
    assert CountOlder([EARLY], 0) == 0 && CountOlder(s, 0) == 0;
    assert CountInWindow([EARLY], 0, 1) == 1 && CountInWindow(s, 0, 1) == 2;
    assert Chosen(s, 1, 0, 1) == [0];
    assert Without([EARLY], [0]) == [];
  }

  lemma SampleLate()
    ensures ReplyTo([EARLY, LATE], 1, 1, 1).Batch?
    ensures Selected([EARLY, LATE], 1, 1, 1) == [LATE] && Remaining([EARLY, LATE], 1, 1, 1) == [EARLY]
  {
    var s := [EARLY, LATE];
    assert s[..1] == [EARLY] && [EARLY][..0] == [];
    assert IntendedPositions([EARLY], 1, 1) == [];
    assert IntendedPositions(s, 1, 1) == [1];
    assert CountOlder([EARLY], 0) == 0 && CountOlder(s, 0) == 0;
    assert CountInWindow([EARLY], 1, 1) == 1 && CountInWindow(s, 1, 1) == 2;
    assert Chosen(s, 1, 1, 1) == [1];
    assert Without([EARLY], [1]) == [EARLY];
  }

  /** With the duplicate in the buffer, the rest of the run is clean and the trainer still
      crashes on its way to the third step. */
  lemma AfterRace(a: State, b: State)
    requires a == State(0, 0, Waiting, Checking(0, -1), {}, [Worker(0, 0, 0, true)], Buffer(2, [EARLY], 0),
                        [0], [EARLY], [])
    requires b == State(0, 0, Waiting, Idle, {}, [], Buffer(2, [EARLY, EARLY], 0), [0, 0], [EARLY, EARLY], [])
    ensures CleanReaches(SMALLEST, a, [Reserve, Finish(0), Spawn, Push(0), Finish(0)], b)
  {
    var cfg := SMALLEST;
    SmallestWindow();
    var s1 := a.(phase := Spawning(0, 0, 0), generating := {0}, reserved := [0, 0]);
    var s2 := s1.(generating := {}, workers := []);
    var s3 := s2.(phase := Idle, workers := [Worker(0, 0, 0, false)]);
    var s4 := b.(workers := [Worker(0, 0, 0, true)]);
    CleanLink(cfg, s4, Finish(0), b, [], b);
    CleanLink(cfg, s3, Push(0), s4, [Finish(0)], b);
    CleanLink(cfg, s2, Spawn, s3, [Push(0), Finish(0)], b);
    CleanLink(cfg, s1, Finish(0), s2, [Spawn, Push(0), Finish(0)], b);
    CleanLink(cfg, a, Reserve, s1, [Finish(0), Spawn, Push(0), Finish(0)], b);
  }

  lemma DuplicateStays(a: State, b: State)
    requires a == State(0, 0, Waiting, Idle, {}, [], Buffer(2, [EARLY, EARLY], 0), [0, 0], [EARLY, EARLY], [])
    requires b == State(1, 0, Waiting, Idle, {1}, [Worker(0, 1, 0, false)], Buffer(2, [EARLY], 0), [0, 0, 1],
                        [EARLY, EARLY], [[EARLY]])
    ensures CleanReaches(SMALLEST, a, [Sample, Bump, Begin, ReadLast, Reserve, Spawn], b)
  {
    var cfg := SMALLEST;
    var s1 := a.(trainer := Training, buffer := Buffer(2, [EARLY], 0), trained := [[EARLY]]);
    var s2 := s1.(trainer := Waiting, version := 1);
    TrainOnEarly(a, s1);
    ReserveLate(s2, b);
    CleanLink(cfg, s1, Bump, s2, [Begin, ReadLast, Reserve, Spawn], b);
    CleanLink(cfg, a, Sample, s1, [Bump, Begin, ReadLast, Reserve, Spawn], b);
  }

  lemma TrainOnEarly(a: State, b: State)
    requires a == State(0, 0, Waiting, Idle, {}, [], Buffer(2, [EARLY, EARLY], 0), [0, 0], [EARLY, EARLY], [])
    requires b == a.(trainer := Training, buffer := Buffer(2, [EARLY], 0), trained := [[EARLY]])
    ensures Do(SMALLEST, a, Sample) == b
  {
    SampleEarlyTwice();
  }

  lemma ReserveLate(a: State, b: State)
    requires a == State(1, 0, Waiting, Idle, {}, [], Buffer(2, [EARLY], 0), [0, 0], [EARLY, EARLY], [[EARLY]])
    requires b == a.(generating := {1}, workers := [Worker(0, 1, 0, false)], reserved := [0, 0, 1])
    ensures CleanReaches(SMALLEST, a, [Begin, ReadLast, Reserve, Spawn], b)
  {
    var cfg := SMALLEST;
    SmallestWindow();
    var s3 := a.(phase := Begun(0));
    var s4 := a.(phase := Checking(0, 0));
    var s5 := s4.(phase := Spawning(0, 1, 0), generating := {1}, reserved := [0, 0, 1]);
    assert [0, 1][1..] == [1] && [0, 0] + [1] == [0, 0, 1];
    CleanLink(cfg, s5, Spawn, b, [], b);
    CleanLink(cfg, s4, Reserve, s5, [Spawn], b);
    CleanLink(cfg, s3, ReadLast, s4, [Reserve, Spawn], b);
    CleanLink(cfg, a, Begin, s3, [ReadLast, Reserve, Spawn], b);
  }

  lemma DuplicateCrashes(a: State, b: State)
    requires a == State(1, 0, Waiting, Idle, {1}, [Worker(0, 1, 0, false)], Buffer(2, [EARLY], 0), [0, 0, 1],
                        [EARLY, EARLY], [[EARLY]])
    requires b == State(2, 0, Crashed, Idle, {1}, [Worker(0, 1, 0, true)], Buffer(2, [EARLY], 1), [0, 0, 1],
                        [EARLY, EARLY, LATE], [[EARLY], [LATE]])
    ensures CleanReaches(SMALLEST, a, [Push(0), Sample, Bump, Sample], b)
  {
    var cfg := SMALLEST;
    SampleLate();
    var s1 := a.(workers := [Worker(0, 1, 0, true)], buffer := Buffer(2, [EARLY, LATE], 1),
                 pushed := [EARLY, EARLY, LATE]);
    var s2 := s1.(trainer := Training, buffer := Buffer(2, [EARLY], 1), trained := [[EARLY], [LATE]]);
    var s3 := s2.(trainer := Waiting, version := 2);
    assert CountOlder([EARLY], 1) == 1;
    CleanLink(cfg, s3, Sample, b, [], b);
    CleanLink(cfg, s2, Bump, s3, [Sample], b);
    CleanLink(cfg, s1, Sample, s2, [Bump, Sample], b);
    CleanLink(cfg, a, Push(0), s1, [Sample, Bump, Sample], b);
  }

  lemma {:induction false} Compose(cfg: Config, a: State, p: seq<Step>, mid: State, q: seq<Step>, b: State)
    requires cfg.Valid() && CleanReaches(cfg, a, p, mid) && CleanReaches(cfg, mid, q, b)
    ensures CleanReaches(cfg, a, p + q, b)
    decreases |p|
  {
    if p == [] {
      assert p + q == q;
    } else {
      Compose(cfg, Do(cfg, a, p[0]), p[1..], mid, q, b);
      assert (p + q)[1..] == p[1..] + q;
    }
  }

  /** What happens once the reservation of target 0 has been given up too early. */
  lemma AfterRelease(released: State) returns (steps: seq<Step>, end: State)
    requires released == State(0, 0, Waiting, Checking(0, -1), {}, [Worker(0, 0, 0, true)], Buffer(2, [EARLY], 0),
                               [0], [EARLY], [])
    ensures CleanReaches(SMALLEST, released, steps, end)
    ensures end.trainer == Crashed && end.reserved == [0, 0, 1]
  {
    var again := State(0, 0, Waiting, Idle, {}, [], Buffer(2, [EARLY, EARLY], 0), [0, 0], [EARLY, EARLY], []);
    var second := State(1, 0, Waiting, Idle, {1}, [Worker(0, 1, 0, false)], Buffer(2, [EARLY], 0), [0, 0, 1],
                        [EARLY, EARLY], [[EARLY]]);
    end := State(2, 0, Crashed, Idle, {1}, [Worker(0, 1, 0, true)], Buffer(2, [EARLY], 1), [0, 0, 1],
                 [EARLY, EARLY, LATE], [[EARLY], [LATE]]);
    AfterRace(released, again);
    DuplicateStays(again, second);
    DuplicateCrashes(second, end);
    steps := ThreeParts(released, [Reserve, Finish(0), Spawn, Push(0), Finish(0)], again,
                        [Sample, Bump, Begin, ReadLast, Reserve, Spawn], second,
                        [Push(0), Sample, Bump, Sample], end);
  }

  lemma ThreeParts(a: State, p: seq<Step>, b: State, q: seq<Step>, c: State, r: seq<Step>, d: State)
    returns (steps: seq<Step>)
    requires CleanReaches(SMALLEST, a, p, b) && CleanReaches(SMALLEST, b, q, c) && CleanReaches(SMALLEST, c, r, d)
    ensures CleanReaches(SMALLEST, a, steps, d)
  {
    Compose(SMALLEST, a, p, b, q, c);
    Compose(SMALLEST, a, p + q, c, r, d);
    steps := p + q + r;
  }

  lemma RaceState() returns (steps: seq<Step>, race: State)
    ensures CleanReaches(SMALLEST, Init(SMALLEST), steps, race)
    ensures race == State(0, 0, Waiting, Checking(0, -1), {0}, [Worker(0, 0, 0, true)], Buffer(2, [EARLY], 0),
                          [0], [EARLY], [])
  {
    steps := [Begin, ReadLast, Reserve, Spawn, Begin, ReadLast, Push(0)];
    race := State(0, 0, Waiting, Checking(0, -1), {0}, [Worker(0, 0, 0, true)], Buffer(2, [EARLY], 0),
                  [0], [EARLY], []);
    UpToRace(Init(SMALLEST), race);
  }

  /** The last generated target is read before the lock is taken. If the worker of target 0
      pushes and then releases its reservation in between, target 0 is reserved and
      generated a second time; the extra group is never meant for a later step, stays in
      the buffer, and makes `sample` raise two versions later. The release is the only step
      of the whole run that is not clean. */
  lemma RaceCrashesTrainer() returns (beforeRelease: seq<Step>, race: State, afterRelease: seq<Step>, end: State)
    ensures CleanReaches(SMALLEST, Init(SMALLEST), beforeRelease, race)
    ensures Enabled(SMALLEST, race, Release(0)) && !Clean(SMALLEST, race, Release(0))
    ensures CleanReaches(SMALLEST, Do(SMALLEST, race, Release(0)), afterRelease, end)
    ensures end.trainer == Crashed && end.reserved == [0, 0, 1]
  {
    beforeRelease, race := RaceState();
    var released := Do(SMALLEST, race, Release(0));
    assert released == race.(generating := {});
    afterRelease, end := AfterRelease(released);
  }

  // ---------------------------------------------------------------- skipped targets

  /** The collector can no longer aim at the version the trainer is waiting for. */
  predicate Skipped(cfg: Config, s: State) {
    s.trainer.Waiting? && s.version !in s.reserved && s.version < Lowest(cfg.start, Gen(s))
  }

  /** Nothing in the system is aimed at version `v`, and nothing will be. */
  ghost predicate Stalled(cfg: Config, s: State, v: int) {
    && s.version == v && !s.trainer.Training?
    && v < Lowest(cfg.start, Gen(s)) && Gen(s) <= s.known
    && (s.phase.Spawning? ==> s.phase.target != v)
    && (forall wk :: wk in s.workers ==> wk.target != v)
    && (forall g :: g in s.buffer.groups ==> g.target != v)
  }

  lemma {:induction false} NoneForStep(s: seq<Group<nat>>, w: int, maxAge: int)
    requires forall g :: g in s ==> g.target != w
    ensures IntendedPositions(s, w, maxAge) == []
  {
    if s != [] { NoneForStep(s[..|s| - 1], w, maxAge); }
  }

  lemma StalledStays(cfg: Config, s: State, v: int, step: Step)
    requires cfg.Valid() && Stalled(cfg, s, v) && Enabled(cfg, s, step)
    ensures Stalled(cfg, Do(cfg, s, step), v) && Do(cfg, s, step).trained == s.trained
  {
    match step
    case Reserve =>
      NextTargetIsLeast(cfg.start, s.phase.gen, cfg.age, s.phase.last, s.generating);
    case Sample =>
      NoneForStep(s.buffer.groups, v, cfg.age);
    case Spawn => SpawnStaysStalled(cfg, s, v);
    case Push(k) => PushStaysStalled(cfg, s, v, k);
    case Finish(k) => RemoveStaysStalled(s, v, k);
    case Fail(k) => RemoveStaysStalled(s, v, k);
    case _ =>
  }

  lemma SpawnStaysStalled(cfg: Config, s: State, v: int)
    requires cfg.Valid() && Stalled(cfg, s, v) && Enabled(cfg, s, Spawn)
    ensures Stalled(cfg, DoSpawn(cfg, s), v)
  {}

  lemma PushStaysStalled(cfg: Config, s: State, v: int, k: nat)
    requires cfg.Valid() && Stalled(cfg, s, v) && k < |s.workers|
    ensures Stalled(cfg, DoPush(s, k), v)
  {
    assert s.workers[k] in s.workers;
  }

  lemma RemoveStaysStalled(s: State, v: int, k: nat)
    requires k < |s.workers| && forall wk :: wk in s.workers ==> wk.target != v
    ensures forall wk :: wk in Dropped(s.workers, k) ==> wk.target != v
  {}

  lemma {:induction false} StalledForever(cfg: Config, s: State, v: int, steps: seq<Step>, end: State)
    requires cfg.Valid() && Stalled(cfg, s, v) && Reaches(cfg, s, steps, end)
    ensures Stalled(cfg, end, v) && end.trained == s.trained
    decreases |steps|
  {
    if steps != [] {
      StalledStays(cfg, s, v, steps[0]);
      StalledForever(cfg, Do(cfg, s, steps[0]), v, steps[1..], end);
    }
  }

  /** Once the target the trainer waits for has been passed over, training stalls for good:
      no continuation, clean or not and however long, ever advances the trainer's version. */
  lemma SkippedTargetStallsForever(cfg: Config, s: State, steps: seq<Step>, end: State)
    requires cfg.Valid() && Inv(cfg, s) && Skipped(cfg, s) && Reaches(cfg, s, steps, end)
    ensures end.version == s.version && !end.trainer.Training? && end.trained == s.trained
  {
    SkippedIsStalled(cfg, s);
    StalledForever(cfg, s, s.version, steps, end);
  }

  lemma SkippedIsStalled(cfg: Config, s: State)
    requires cfg.Valid() && Inv(cfg, s) && Skipped(cfg, s)
    ensures Stalled(cfg, s, s.version)
  {
    BufferInWindow(cfg, s);
  }

  lemma SampleEarlyOnce()
    ensures ReplyTo([EARLY], 1, 0, 1).Batch?
    ensures Selected([EARLY], 1, 0, 1) == [EARLY] && Remaining([EARLY], 1, 0, 1) == []
  {
    assert [EARLY][..0] == [];
    assert IntendedPositions([EARLY], 0, 1) == [0];
    assert CountOlder([EARLY], 0) == 0 && CountInWindow([EARLY], 0, 1) == 1;
    assert Chosen([EARLY], 1, 0, 1) == [0];
  }

  lemma StallStart(a: State, b: State)
    requires a == Init(SMALLEST)
    requires b == State(0, 0, Waiting, Idle, {0}, [Worker(0, 0, 0, false)], Buffer(2, [], -1), [0], [], [])
    ensures CleanReaches(SMALLEST, a, [Begin, ReadLast, Reserve, Spawn], b)
  {
    var cfg := SMALLEST;
    SmallestWindow();
    var s1 := a.(phase := Begun(0));
    var s2 := a.(phase := Checking(0, -1));
    var s3 := a.(phase := Spawning(0, 0, 0), generating := {0}, reserved := [0]);
    CleanLink(cfg, s3, Spawn, b, [], b);
    CleanLink(cfg, s2, Reserve, s3, [Spawn], b);
    CleanLink(cfg, s1, ReadLast, s2, [Reserve, Spawn], b);
    CleanLink(cfg, a, Begin, s1, [ReadLast, Reserve, Spawn], b);
  }

  /** A clean run that stalls: the trainer takes step 0 and tells the collector of version 1
      before target 1 has been reserved; from version 1 the collector aims at 2 and above. */
  lemma StallIsReachable() returns (steps: seq<Step>, end: State)
    ensures CleanReaches(SMALLEST, Init(SMALLEST), steps, end)
    ensures Skipped(SMALLEST, end) && end.version == 1
  {
    var cfg := SMALLEST;
    var mid := State(0, 0, Waiting, Idle, {0}, [Worker(0, 0, 0, false)], Buffer(2, [], -1), [0], [], []);
    StallStart(Init(cfg), mid);
    SampleEarlyOnce();
    var s1 := mid.(workers := [Worker(0, 0, 0, true)], buffer := Buffer(2, [EARLY], 0), pushed := [EARLY]);
    var s2 := s1.(generating := {}, workers := []);
    var s3 := s2.(trainer := Training, buffer := Buffer(2, [], 0), trained := [[EARLY]]);
    var s4 := s3.(trainer := Waiting, version := 1);
    end := s4.(known := 1);
    CleanLink(cfg, s4, Deliver, end, [], end);
    CleanLink(cfg, s3, Bump, s4, [Deliver], end);
    CleanLink(cfg, s2, Sample, s3, [Bump, Deliver], end);
    CleanLink(cfg, s1, Finish(0), s2, [Sample, Bump, Deliver], end);
    CleanLink(cfg, mid, Push(0), s1, [Finish(0), Sample, Bump, Deliver], end);
    steps := [Begin, ReadLast, Reserve, Spawn] + [Push(0), Finish(0), Sample, Bump, Deliver];
    Compose(cfg, Init(cfg), [Begin, ReadLast, Reserve, Spawn], mid, [Push(0), Finish(0), Sample, Bump, Deliver], end);
  }

  /** Like `CleanReaches`, and the collector is told of a version only once it has reserved it. */
  ghost predicate TimelyReaches(cfg: Config, a: State, steps: seq<Step>, b: State)
    requires cfg.Valid()
    decreases |steps|
  {
    if steps == [] then a == b
    else
      && Enabled(cfg, a, steps[0]) && Clean(cfg, a, steps[0])
      && (steps[0].Deliver? ==> a.known + 1 in a.reserved)
      && TimelyReaches(cfg, Do(cfg, a, steps[0]), steps[1..], b)
  }

  ghost predicate NoGap(cfg: Config, s: State) {
    && (forall i :: 0 <= i < |s.reserved| ==> s.reserved[i] == cfg.start + i)
    && s.known <= cfg.start + |s.reserved|
    && (s.known > cfg.start ==> s.known in s.reserved)
  }

  lemma StepKeepsNoGap(cfg: Config, s: State, step: Step)
    requires cfg.Valid() && Inv(cfg, s) && NoGap(cfg, s) && Enabled(cfg, s, step)
    requires step.Deliver? ==> s.known + 1 in s.reserved
    ensures NoGap(cfg, Do(cfg, s, step))
  {
    if step.Reserve? && DoReserve(cfg, s).phase.Spawning? {
      ReservesNext(cfg, s);
    }
  }

  lemma ReservesNext(cfg: Config, s: State)
    requires cfg.Valid() && Inv(cfg, s) && NoGap(cfg, s) && s.phase.Checking? && DoReserve(cfg, s).phase.Spawning?
    ensures DoReserve(cfg, s).phase.target == cfg.start + |s.reserved|
  {
    ReservationIsFresh(cfg, s);
    var next := cfg.start + |s.reserved|;
    forall x | cfg.start <= x < next ensures x in s.reserved {
      assert s.reserved[x - cfg.start] == x;
    }
    assert next !in s.reserved;
    assert Lowest(cfg.start, s.phase.gen) <= next;
  }

  /** While the collection thread is between reservations, telling the collector of the next
      version passes a target over if and only if that version has not been reserved. */
  lemma DeliverySkipsIff(cfg: Config, s: State)
    requires cfg.Valid() && Inv(cfg, s) && NoGap(cfg, s) && Enabled(cfg, s, Deliver)
    requires s.phase.Idle? || s.phase.Spawning?
    ensures Skipped(cfg, Do(cfg, s, Deliver)) <==> s.known + 1 !in s.reserved
  {
    if s.known + 1 in s.reserved {
      StepKeepsNoGap(cfg, s, Deliver);
    } else {
      UnreservedIsNext(cfg, s);
    }
  }

  /** Without gaps only the version the trainer waits for can be unreserved. */
  lemma UnreservedIsNext(cfg: Config, s: State)
    requires cfg.Valid() && Inv(cfg, s) && NoGap(cfg, s) && s.known < s.version && s.known + 1 !in s.reserved
    ensures s.version == s.known + 1 && s.trainer.Waiting?
  {
    if s.known + 1 < Untrained(s) {
      TrainedWasReserved(cfg, s, s.known + 1);
    }
  }

  /** If the collector always hears of a version after reserving it, no target is skipped:
      the reservations are exactly `start, start + 1, start + 2, ...` and the trainer can
      always still be served. */
  lemma {:induction false} TimelyRunsSkipNothing(cfg: Config, a: State, steps: seq<Step>, b: State)
    requires cfg.Valid() && Inv(cfg, a) && NoGap(cfg, a) && TimelyReaches(cfg, a, steps, b)
    ensures Inv(cfg, b) && NoGap(cfg, b) && !Skipped(cfg, b)
    decreases |steps|
  {
    if steps != [] {
      StepKeepsInv(cfg, a, steps[0]);
      StepKeepsNoGap(cfg, a, steps[0]);
      TimelyRunsSkipNothing(cfg, Do(cfg, a, steps[0]), steps[1..], b);
    }
  }
}
