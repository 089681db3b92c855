/** Reservation of target versions by the trajectory collector
    (`AsyncTrajectoryCollector`, nemo_rl/algorithms/async_utils.py). */
module Collectors {
  import opened Lists

  /** Lowest version a generator at version `gen` may aim at. */
  function Lowest(initial: int, gen: int): int {
    if gen == initial then initial else gen + 1
  }

  /** `_calculate_target_weights`: candidate targets, in the order they are tried. */
  function TargetWindow(initial: int, gen: int, maxAge: int): seq<int> {
    if gen == initial then Iota(initial, Max(0, maxAge + 1)) else Iota(gen + 1, Max(0, maxAge))
  }

  predicate NeedsGeneration(t: int, last: int, generating: set<int>) {
    t > last && t !in generating
  }

  function FirstNeeding(window: seq<int>, last: int, generating: set<int>): Option<int> {
    if window == [] then None
    else if NeedsGeneration(window[0], last, generating) then Some(window[0])
    else FirstNeeding(window[1..], last, generating)
  }

  lemma {:induction false} FirstNeedingIsFirst(window: seq<int>, last: int, generating: set<int>)
    ensures match FirstNeeding(window, last, generating)
            case None => forall x :: x in window ==> !NeedsGeneration(x, last, generating)
            case Some(t) =>
              exists i :: 0 <= i < |window| && window[i] == t && NeedsGeneration(t, last, generating)
                       && forall j :: 0 <= j < i ==> !NeedsGeneration(window[j], last, generating)
  {
    if window != [] && !NeedsGeneration(window[0], last, generating) {
      FirstNeedingIsFirst(window[1..], last, generating);
      match FirstNeeding(window[1..], last, generating) {
        case None =>
          forall x | x in window ensures !NeedsGeneration(x, last, generating) {
            if x != window[0] { assert x in window[1..]; }
          }
        case Some(t) =>
          var i :| 0 <= i < |window| - 1 && window[1..][i] == t
                && forall j :: 0 <= j < i ==> !NeedsGeneration(window[1..][j], last, generating);
          assert window[i + 1] == t;
          forall j | 0 <= j < i + 1 ensures !NeedsGeneration(window[j], last, generating) {
            if j > 0 { assert window[j] == window[1..][j - 1]; }
          }
      }
    }
  }

  /** What the search returns: the least target of the window [Lowest, gen + maxAge] above
      the last generated one that nobody is generating; None exactly when there is none. */
  lemma NextTargetIsLeast(initial: int, gen: int, maxAge: int, last: int, generating: set<int>)
    requires 0 <= maxAge
    ensures match FirstNeeding(TargetWindow(initial, gen, maxAge), last, generating)
            case None =>
              forall x :: Lowest(initial, gen) <= x <= gen + maxAge ==> !NeedsGeneration(x, last, generating)
            case Some(t) =>
              && Lowest(initial, gen) <= t <= gen + maxAge
              && NeedsGeneration(t, last, generating)
              && forall x :: Lowest(initial, gen) <= x < t ==> !NeedsGeneration(x, last, generating)
  {
    var window := TargetWindow(initial, gen, maxAge);
    var lo := Lowest(initial, gen);
    FirstNeedingIsFirst(window, last, generating);
    match FirstNeeding(window, last, generating) {
      case None =>
        forall x | lo <= x <= gen + maxAge ensures !NeedsGeneration(x, last, generating) {
          assert window[x - lo] == x;
        }
      case Some(t) =>
        forall x | lo <= x < t ensures !NeedsGeneration(x, last, generating) {
          assert window[x - lo] == x;
        }
    }
  }

  /** The collector's shared state. Threads become atomic calls of these methods. */
  class AsyncTrajectoryCollector {
    const maxAge: nat
    const initialWeightVersion: int
    var currentWeightVersion: int
    var generatingTargets: set<int>
    var permits: nat                 // what is left of `_inflight_sema`

    constructor (numPrompts: nat, maxAge: nat, startStep: int)
      ensures this.maxAge == maxAge && initialWeightVersion == startStep
      ensures currentWeightVersion == startStep && generatingTargets == {}
      ensures permits == if numPrompts * maxAge == 0 then 1 else numPrompts * maxAge
    {
      this.maxAge := maxAge;
      initialWeightVersion := startStep;
      currentWeightVersion := startStep;
      generatingTargets := {};
      permits := if numPrompts * maxAge == 0 then 1 else numPrompts * maxAge;
    }

    /** The part of `_get_next_target_for_generation` under the lock; `last` is the value
        read from the buffer before the lock was taken. */
    method ReserveNextTarget(gen: int, last: int) returns (target: Option<int>)
      modifies this`generatingTargets
      ensures target == FirstNeeding(TargetWindow(initialWeightVersion, gen, maxAge), last,
                                     old(generatingTargets))
      ensures generatingTargets == old(generatingTargets)
                                 + match target case None => {} case Some(t) => {t}
    {
      var window := TargetWindow(initialWeightVersion, gen, maxAge);
      var i := 0;
      while i < |window|
        invariant 0 <= i <= |window| && generatingTargets == old(generatingTargets)
        invariant FirstNeeding(window, last, generatingTargets)
               == FirstNeeding(window[i..], last, generatingTargets)
      {
        if window[i] > last && window[i] !in generatingTargets {
          generatingTargets := generatingTargets + {window[i]};
          return Some(window[i]);
        }
        i := i + 1;
      }
      target := None;
    }

    /** `_should_pause_for_generation_limits`: true exactly when a reservation would fail. */
    method ShouldPauseForGenerationLimits(last: int) returns (pause: bool)
      ensures pause <==>
                forall x :: Lowest(initialWeightVersion, currentWeightVersion) <= x <= currentWeightVersion + maxAge ==>
                  !NeedsGeneration(x, last, generatingTargets)
    {
      NextTargetIsLeast(initialWeightVersion, currentWeightVersion, maxAge, last, generatingTargets);
      var window := TargetWindow(initialWeightVersion, currentWeightVersion, maxAge);
      var i := 0;
      while i < |window|
        invariant 0 <= i <= |window|
        invariant FirstNeeding(window, last, generatingTargets)
               == FirstNeeding(window[i..], last, generatingTargets)
      {
        if window[i] > last && window[i] !in generatingTargets {
          return false;
        }
        i := i + 1;
      }
      pause := true;
    }

    method SetWeightVersion(version: int)
      modifies this`currentWeightVersion
      ensures currentWeightVersion == version
    {
      currentWeightVersion := version;
    }

    method TryStartWorker() returns (started: bool)
      modifies this`permits
      ensures started <==> old(permits) > 0
      ensures permits == if started then old(permits) - 1 else old(permits)
    {
      started := permits > 0;
      if started { permits := permits - 1; }
    }

    method ReleaseReservation(target: int)
      modifies this`generatingTargets
      ensures generatingTargets == old(generatingTargets) - {target}
    {
      if target in generatingTargets {
        generatingTargets := generatingTargets - {target};
      }
    }

    /** The `finally` clause of a worker. */
    method FinishWorker(target: int)
      modifies this`generatingTargets, this`permits
      ensures generatingTargets == old(generatingTargets) - {target}
      ensures permits == old(permits) + 1
    {
      ReleaseReservation(target);
      permits := permits + 1;
    }
  }
}
