/** The asynchronous GRPO protocol as a transition system.

    One state holds the trainer (nemo_rl/algorithms/grpo.py), the collector with its worker
    threads and the replay buffer (nemo_rl/algorithms/async_utils.py). Every access to
    shared data that the original makes atomically is one step, so a run is any
    interleaving of the threads. */
module AsyncProtocol {
  import opened Lists
  import opened ReplayBuffers
  import opened Collectors

  /** `n` prompts per step, age window `age`, training resumed at version `start`. */
  datatype Config = Config(n: int, age: int, start: int) {
    function BufferSize(): int { n * age * 2 }
    function Permits(): int { n * age }
    /** The buffer's constructor rejects a size that is not positive. */
    predicate Valid() { 0 < n && 0 < age && 0 <= start }
  }

  /** A thread generating one prompt's group. */
  datatype Worker = Worker(version: int, target: int, prompt: nat, pushed: bool)

  /** Where the collection thread is inside `_process_batch`. */
  datatype Phase =
    | Idle
    | Begun(gen: int)                            // version read
    | Checking(gen: int, last: int)              // last generated target read, lock not yet taken
    | Spawning(gen: int, target: int, next: nat) // reservation made, prompts below `next` started

  datatype Trainer = Waiting | Training | Crashed

  datatype State = State(
    version: int,                // the trainer's weight_version
    known: int,                  // the collector's current_weight_version
    trainer: Trainer,
    phase: Phase,
    generating: set<int>,        // _generating_targets
    workers: seq<Worker>,        // in-flight threads, each holding a semaphore permit
    buffer: Buffer<nat>,         // a group's trajectory is named by its prompt index
    reserved: seq<int>,          // history: targets in the order they were reserved
    pushed: seq<Group<nat>>,     // history: groups in the order they were buffered
    trained: seq<seq<Group<nat>>>// history: the batch of each training step
  )

  datatype Step =
    | Begin | ReadLast | Reserve | RefreshVersion | Spawn  // collection thread
    | Push(k: nat) | Release(k: nat) | Finish(k: nat) | Fail(k: nat)  // worker k
    | Sample | Bump                                        // trainer
    | Deliver                                              // set_weight_version arrives

  function Init(cfg: Config): State {
    State(cfg.start, cfg.start, Waiting, Idle, {}, [], Buffer(cfg.BufferSize(), [], -1), [], [], [])
  }

  function SampleReply(cfg: Config, s: State): Reply<nat>
    requires cfg.Valid()
  {
    ReplyTo(s.buffer.groups, cfg.n, s.version, cfg.age)
  }

  predicate Enabled(cfg: Config, s: State, step: Step) {
    match step
    case Begin => s.phase.Idle?
    case ReadLast => s.phase.Begun?
    case Reserve => s.phase.Checking?
    case RefreshVersion => s.phase.Spawning?
    case Spawn => s.phase.Spawning? && |s.workers| < cfg.Permits()
    case Push(k) => k < |s.workers| && !s.workers[k].pushed
    case Release(k) => k < |s.workers| && s.workers[k].pushed && s.workers[k].prompt == 0
    case Finish(k) => k < |s.workers| && s.workers[k].pushed
    case Fail(k) => k < |s.workers| && !s.workers[k].pushed
    case Sample => s.trainer.Waiting?
    case Bump => s.trainer.Training?
    case Deliver => s.known < s.version
  }

  function DoReserve(cfg: Config, s: State): State
    requires s.phase.Checking?
  {
    match FirstNeeding(TargetWindow(cfg.start, s.phase.gen, cfg.age), s.phase.last, s.generating)
    case None => s.(phase := Idle)
    case Some(t) =>
      s.(phase := Spawning(s.phase.gen, t, 0), generating := s.generating + {t}, reserved := s.reserved + [t])
  }

  function DoSpawn(cfg: Config, s: State): State
    requires Enabled(cfg, s, Spawn)
  {
    var ph := s.phase;
    s.(workers := s.workers + [Worker(ph.gen, ph.target, ph.next, false)],
       phase := if ph.next + 1 < cfg.n then ph.(next := ph.next + 1) else Idle)
  }

  function DoPush(s: State, k: nat): State
    requires k < |s.workers|
  {
    var wk := s.workers[k];
    var g := Group(wk.prompt, wk.version, wk.target);
    if PushStatusOf(s.buffer) == Full then s      // the worker backs off and tries again
    else s.(buffer := AfterPush(s.buffer, g), pushed := s.pushed + [g],
            workers := s.workers[k := wk.(pushed := true)])
  }

  function DoSample(cfg: Config, s: State): State
    requires cfg.Valid()
  {
    var groups := s.buffer.groups;
    match SampleReply(cfg, s)
    case NothingYet => s
    case OlderThanWindow(_) => s.(trainer := Crashed)
    case NoGroupsRequested => s.(trainer := Crashed)
    case Batch(_, _) =>
      s.(trainer := Training,
         buffer := s.buffer.(groups := Remaining(groups, cfg.n, s.version, cfg.age)),
         trained := s.trained + [Selected(groups, cfg.n, s.version, cfg.age)])
  }

  function Do(cfg: Config, s: State, step: Step): State
    requires cfg.Valid() && Enabled(cfg, s, step)
  {
    match step
    case Begin => s.(phase := Begun(s.known))
    case ReadLast => s.(phase := Checking(s.phase.gen, s.buffer.lastTarget))
    case Reserve => DoReserve(cfg, s)
    case RefreshVersion => s.(phase := s.phase.(gen := s.known))
    case Spawn => DoSpawn(cfg, s)
    case Push(k) => DoPush(s, k)
    case Release(k) => s.(generating := s.generating - {s.workers[k].target})
    case Finish(k) => s.(generating := s.generating - {s.workers[k].target}, workers := Dropped(s.workers, k))
    case Fail(k) => s.(generating := s.generating - {s.workers[k].target}, workers := Dropped(s.workers, k))
    case Sample => DoSample(cfg, s)
    case Bump => s.(trainer := Waiting, version := s.version + 1)
    case Deliver => s.(known := s.known + 1)
  }

  // ---------------------------------------------------------------- clean steps

  /** Version the collection thread's next reservation will be made with: the one it has read
      for it, or while it has none the one it is about to read. */
  function Gen(s: State): int { if s.phase.Idle? || s.phase.Spawning? then s.known else s.phase.gen }

  /** Last generated target as the collection thread will use it for its next reservation. */
  function Seen(s: State): int { if s.phase.Checking? then s.phase.last else s.buffer.lastTarget }

  /** Giving up the reservation of `t` now would let the collector reserve it again: `t` is
      reserved, lies in the current window or above, and the value the collector compares
      with does not cover it. */
  predicate Exposes(cfg: Config, s: State, t: int) {
    t in s.generating && t > Seen(s) && t >= Lowest(cfg.start, Gen(s))
  }

  /** A worker gives up a reservation only when that does not expose the target. With the
      lock held over both the read and the check, only a worker that fails before anything
      of its target was buffered is not clean. */
  predicate Clean(cfg: Config, s: State, step: Step) {
    match step
    case Release(k) => k < |s.workers| ==> !Exposes(cfg, s, s.workers[k].target)
    case Finish(k) => k < |s.workers| ==> !Exposes(cfg, s, s.workers[k].target)
    case Fail(k) => k < |s.workers| ==> !Exposes(cfg, s, s.workers[k].target)
    case _ => true
  }

  /** Taking `steps` one after the other leads from `a` to `b`. */
  ghost predicate Reaches(cfg: Config, a: State, steps: seq<Step>, b: State)
    requires cfg.Valid()
    decreases |steps|
  {
    if steps == [] then a == b
    else Enabled(cfg, a, steps[0]) && Reaches(cfg, Do(cfg, a, steps[0]), steps[1..], b)
  }

  ghost predicate CleanReaches(cfg: Config, a: State, steps: seq<Step>, b: State)
    requires cfg.Valid()
    decreases |steps|
  {
    if steps == [] then a == b
    else
      && Enabled(cfg, a, steps[0]) && Clean(cfg, a, steps[0])
      && CleanReaches(cfg, Do(cfg, a, steps[0]), steps[1..], b)
  }

  /** `s` is a state of some run from the start in which every step is clean. */
  ghost predicate SafelyReachable(cfg: Config, s: State)
    requires cfg.Valid()
  {
    exists steps :: CleanReaches(cfg, Init(cfg), steps, s)
  }

  // ---------------------------------------------------------------- counting

  /** The groups of one target, in push order. */
  function WithTarget(s: seq<Group<nat>>, t: int): seq<Group<nat>> {
    if s == [] then []
    else WithTarget(s[..|s| - 1], t) + if s[|s| - 1].target == t then [s[|s| - 1]] else []
  }

  /** The groups whose target is `lo` or later, in push order. */
  function FromTarget(s: seq<Group<nat>>, lo: int): seq<Group<nat>> {
    if s == [] then []
    else FromTarget(s[..|s| - 1], lo) + if s[|s| - 1].target >= lo then [s[|s| - 1]] else []
  }

  /** Workers for target `t` that have not pushed yet. */
  function Flying(ws: seq<Worker>, t: int): nat {
    if ws == [] then 0
    else Flying(ws[..|ws| - 1], t) + if ws[|ws| - 1].target == t && !ws[|ws| - 1].pushed then 1 else 0
  }

  /** Workers started so far for target `t`. */
  function Spawned(cfg: Config, s: State, t: int): int {
    if t !in s.reserved then 0
    else if s.phase.Spawning? && s.phase.target == t then s.phase.next
    else cfg.n
  }

  /** First version whose groups have not been taken by the trainer. */
  function Untrained(s: State): int { if s.trainer.Training? then s.version + 1 else s.version }

  lemma WithTargetSnoc(s: seq<Group<nat>>, g: Group<nat>, t: int)
    ensures WithTarget(s + [g], t) == WithTarget(s, t) + if g.target == t then [g] else []
  {
    assert (s + [g])[..|s|] == s;
  }

  lemma FromTargetSnoc(s: seq<Group<nat>>, g: Group<nat>, lo: int)
    ensures FromTarget(s + [g], lo) == FromTarget(s, lo) + if g.target >= lo then [g] else []
  {
    assert (s + [g])[..|s|] == s;
  }

  lemma {:induction false} FlyingAppend(a: seq<Worker>, b: seq<Worker>, t: int)
    ensures Flying(a + b, t) == Flying(a, t) + Flying(b, t)
  {
    if b == [] {
      assert a + b == a;
    } else {
      assert (a + b)[..|a + b| - 1] == a + b[..|b| - 1];
      FlyingAppend(a, b[..|b| - 1], t);
    }
  }

  lemma FlyingAt(ws: seq<Worker>, k: nat, wk: Worker, t: int)
    requires k < |ws|
    ensures Flying(ws[k := wk], t)
         == Flying(Dropped(ws, k), t) + if wk.target == t && !wk.pushed then 1 else 0
  {
    assert ws[k := wk] == ws[..k] + ([wk] + ws[k + 1..]);
    FlyingAppend(ws[..k], [wk] + ws[k + 1..], t);
    FlyingAppend([wk], ws[k + 1..], t);
    FlyingAppend(ws[..k], ws[k + 1..], t);
  }

  lemma FlyingWithout(ws: seq<Worker>, k: nat, t: int)
    requires k < |ws|
    ensures Flying(ws, t)
         == Flying(Dropped(ws, k), t) + if ws[k].target == t && !ws[k].pushed then 1 else 0
  {
    assert ws[k := ws[k]] == ws;
    FlyingAt(ws, k, ws[k], t);
  }

  // ---------------------------------------------------------------- the invariant

  ghost predicate Versions(cfg: Config, s: State) {
    && s.buffer.maxSize == cfg.BufferSize()
    && cfg.start <= s.known <= s.version
    && cfg.start <= Gen(s) <= s.known
    && !s.trainer.Crashed?
    && |s.workers| <= cfg.Permits()
    && (s.phase.Checking? ==> s.phase.last <= s.buffer.lastTarget)
    && (s.phase.Spawning? ==>
          && s.phase.next < cfg.n
          && s.phase.target in s.reserved
          && s.phase.target - cfg.age <= s.phase.gen
          && cfg.start <= s.phase.gen <= s.known)
  }

  ghost predicate Increasing(r: seq<int>) {
    forall i, j :: 0 <= i < j < |r| ==> r[i] < r[j]
  }

  ghost predicate Reservations(cfg: Config, s: State) {
    && Increasing(s.reserved)
    && (forall t :: t in s.reserved ==> cfg.start <= t <= Gen(s) + cfg.age)
    && (forall t :: t in s.generating ==> t in s.reserved)
    // no target of the window is passed over
    && (forall t, u :: u in s.reserved && Lowest(cfg.start, Gen(s)) <= t < u ==> t in s.reserved)
    // a reserved target is marked, or the collector sees that it was generated, or it is out of reach
    && (forall t :: t in s.reserved ==>
          t in s.generating || t <= Seen(s) || t < Lowest(cfg.start, Gen(s)))
    && (s.buffer.lastTarget == -1 || s.buffer.lastTarget in s.reserved)
    && -1 <= s.buffer.lastTarget
  }

  predicate WithinAge(cfg: Config, version: int, target: int, known: int) {
    cfg.start <= version && target - cfg.age <= version <= target && version <= known
  }

  ghost predicate Groups(cfg: Config, s: State) {
    && (forall g :: g in s.pushed ==>
          g.target in s.reserved && g.target <= s.buffer.lastTarget && WithinAge(cfg, g.version, g.target, s.known))
    && (forall wk :: wk in s.workers ==>
          && wk.target in s.reserved && WithinAge(cfg, wk.version, wk.target, s.known)
          && (wk.pushed ==> wk.target <= s.buffer.lastTarget))
  }

  predicate CountAt(cfg: Config, s: State, t: int) {
    |WithTarget(s.pushed, t)| + Flying(s.workers, t) <= Spawned(cfg, s, t)
  }

  /** No target has more groups, pushed or coming, than workers started for it. */
  ghost predicate Counts(cfg: Config, s: State) {
    forall t :: CountAt(cfg, s, t)
  }

  predicate TrainedAt(cfg: Config, s: State, i: nat)
    requires i < |s.trained|
  {
    s.trained[i] == WithTarget(s.pushed, cfg.start + i) && |s.trained[i]| == cfg.n
  }

  ghost predicate History(cfg: Config, s: State) {
    && |s.trained| == Untrained(s) - cfg.start
    && s.buffer.groups == FromTarget(s.pushed, Untrained(s))
    && forall i :: 0 <= i < |s.trained| ==> TrainedAt(cfg, s, i)
  }

  ghost predicate Inv(cfg: Config, s: State) {
    && Versions(cfg, s) && Reservations(cfg, s) && Groups(cfg, s) && Counts(cfg, s) && History(cfg, s)
  }
}
