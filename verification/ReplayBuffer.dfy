/** The replay buffer of per-prompt trajectory groups (nemo_rl/algorithms/async_utils.py).

    The buffer is specified on values (`Buffer`, `ReplyTo`, `Remaining`) and implemented by
    the class `ReplayBuffer`, which keeps three parallel lists as the original does. */
module ReplayBuffers {
  import opened Lists

  /** One prompt's group: generated under weight version `version`, to be trained on when
      the trainer is at weight version `target`. */
  datatype Group<T> = Group(trajectory: T, version: int, target: int)

  datatype Buffer<T> = Buffer(maxSize: int, groups: seq<Group<T>>, lastTarget: int)

  datatype PushStatus = Success | Full

  datatype Reply<T> =
    | NothingYet                       // None: the trainer waits
    | OlderThanWindow(count: nat)      // ValueError: trajectories below the age window
    | NoGroupsRequested                // ZeroDivisionError when averaging no versions
    | Batch(trajectories: seq<T>, averageAge: real)

  // ---------------------------------------------------------------- push

  function PushStatusOf<T>(b: Buffer<T>): PushStatus {
    if |b.groups| >= b.maxSize then Full else Success
  }

  function AfterPush<T>(b: Buffer<T>, g: Group<T>): Buffer<T> {
    if PushStatusOf(b) == Full then b
    else Buffer(b.maxSize, b.groups + [g], Max(b.lastTarget, g.target))
  }

  // ---------------------------------------------------------------- sample

  function MinValidVersion(w: int, maxAge: int): int { Max(0, w - maxAge) }

  predicate InWindow<T>(g: Group<T>, w: int, maxAge: int) {
    MinValidVersion(w, maxAge) <= g.version <= w
  }

  predicate Intended<T>(g: Group<T>, w: int, maxAge: int) {
    InWindow(g, w, maxAge) && g.target == w
  }

  function CountOlder<T>(s: seq<Group<T>>, minVersion: int): (n: nat)
    ensures n == 0 <==> forall g :: g in s ==> g.version >= minVersion
  {
    if s == [] then 0
    else
      var m := |s| - 1;
      assert s == s[..m] + [s[m]];
      CountOlder(s[..m], minVersion) + if s[m].version < minVersion then 1 else 0
  }

  function CountInWindow<T>(s: seq<Group<T>>, w: int, maxAge: int): (n: nat)
    ensures n <= |s|
    ensures n == |s| <==> forall g :: g in s ==> InWindow(g, w, maxAge)
  {
    if s == [] then 0
    else
      var m := |s| - 1;
      assert s == s[..m] + [s[m]];
      CountInWindow(s[..m], w, maxAge) + if InWindow(s[m], w, maxAge) then 1 else 0
  }

  /** The groups the trainer at version `w` may train on, oldest push first. */
  function IntendedOf<T>(s: seq<Group<T>>, w: int, maxAge: int): seq<Group<T>> {
    if s == [] then []
    else
      var m := |s| - 1;
      IntendedOf(s[..m], w, maxAge) + if Intended(s[m], w, maxAge) then [s[m]] else []
  }

  function OthersOf<T>(s: seq<Group<T>>, w: int, maxAge: int): seq<Group<T>> {
    if s == [] then []
    else
      var m := |s| - 1;
      OthersOf(s[..m], w, maxAge) + if Intended(s[m], w, maxAge) then [] else [s[m]]
  }

  /** Positions of the intended groups, ascending (`intended_indices`). */
  function IntendedPositions<T>(s: seq<Group<T>>, w: int, maxAge: int): (p: seq<nat>)
    ensures forall i :: 0 <= i < |p| ==> p[i] < |s|
  {
    if s == [] then []
    else
      var m := |s| - 1;
      IntendedPositions(s[..m], w, maxAge) + if Intended(s[m], w, maxAge) then [m] else []
  }

  function At<T>(s: seq<T>, positions: seq<nat>): (r: seq<T>)
    requires forall i :: 0 <= i < |positions| ==> positions[i] < |s|
  {
    seq(|positions|, i requires 0 <= i < |positions| => s[positions[i]])
  }

  /** `s` without the elements at the given positions. */
  function Without<T>(s: seq<T>, positions: seq<nat>): (r: seq<T>)
    ensures |r| <= |s|
  {
    if s == [] then []
    else
      var m := |s| - 1;
      Without(s[..m], positions) + if m in positions then [] else [s[m]]
  }

  function SumVersions<T>(s: seq<Group<T>>): int {
    if s == [] then 0 else SumVersions(s[..|s| - 1]) + s[|s| - 1].version
  }

  predicate Samples<T>(s: seq<Group<T>>, n: nat, w: int, maxAge: int) {
    && s != []
    && CountOlder(s, MinValidVersion(w, maxAge)) == 0
    && 0 < CountInWindow(s, w, maxAge)
    && n <= CountInWindow(s, w, maxAge)
    && n <= |IntendedPositions(s, w, maxAge)|
    && 0 < n
  }

  /** The positions taken: the first `n` intended ones, or none. */
  function Chosen<T>(s: seq<Group<T>>, n: nat, w: int, maxAge: int): (p: seq<nat>)
    ensures forall i :: 0 <= i < |p| ==> p[i] < |s|
  {
    if Samples(s, n, w, maxAge) then IntendedPositions(s, w, maxAge)[..n] else []
  }

  function Selected<T>(s: seq<Group<T>>, n: nat, w: int, maxAge: int): seq<Group<T>> {
    At(s, Chosen(s, n, w, maxAge))
  }

  function Remaining<T>(s: seq<Group<T>>, n: nat, w: int, maxAge: int): seq<Group<T>> {
    Without(s, Chosen(s, n, w, maxAge))
  }

  function Trajectories<T>(s: seq<Group<T>>): seq<T> {
    seq(|s|, i requires 0 <= i < |s| => s[i].trajectory)
  }

  function ReplyTo<T>(s: seq<Group<T>>, n: nat, w: int, maxAge: int): Reply<T> {
    var older := CountOlder(s, MinValidVersion(w, maxAge));
    if s == [] then NothingYet
    else if older > 0 then OlderThanWindow(older)
    else if CountInWindow(s, w, maxAge) == 0 then NothingYet
    else if CountInWindow(s, w, maxAge) < n then NothingYet
    else if |IntendedPositions(s, w, maxAge)| < n then NothingYet
    else if n == 0 then NoGroupsRequested
    else
      var chosen := Selected(s, n, w, maxAge);
      Batch(Trajectories(chosen), w as real - SumVersions(chosen) as real / n as real)
  }

  // ---------------------------------------------------------------- what sampling means

  lemma {:induction false} AtIntended<T>(s: seq<Group<T>>, w: int, maxAge: int)
    ensures At(s, IntendedPositions(s, w, maxAge)) == IntendedOf(s, w, maxAge)
  {
    if s != [] {
      var m := |s| - 1;
      AtIntended(s[..m], w, maxAge);
      var p := IntendedPositions(s[..m], w, maxAge);
      assert At(s, p) == At(s[..m], p);
      if Intended(s[m], w, maxAge) {
        assert At(s, p + [m]) == At(s, p) + [s[m]];
      }
    }
  }

  lemma {:induction false} WithoutOutside<T>(s: seq<T>, positions: seq<nat>, k: nat)
    requires |s| <= k
    ensures Without(s, positions + [k]) == Without(s, positions)
  {
    if s != [] {
      WithoutOutside(s[..|s| - 1], positions, k);
    }
  }

  lemma {:induction false} PositionsIntended<T>(s: seq<Group<T>>, w: int, maxAge: int)
    ensures forall g :: g in IntendedOf(s, w, maxAge) ==> g in s && Intended(g, w, maxAge)
  {
    if s != [] { PositionsIntended(s[..|s| - 1], w, maxAge); }
  }

  ghost predicate Ascending(p: seq<nat>) {
    forall i, j :: 0 <= i < j < |p| ==> p[i] < p[j]
  }

  lemma {:induction false} PositionsAscend<T>(s: seq<Group<T>>, w: int, maxAge: int)
    ensures Ascending(IntendedPositions(s, w, maxAge))
  {
    if s != [] {
      PositionsAscend(s[..|s| - 1], w, maxAge);
    }
  }

  lemma FilterSnoc<T>(r: seq<Group<T>>, g: Group<T>, w: int, maxAge: int)
    ensures IntendedOf(r + [g], w, maxAge)
         == IntendedOf(r, w, maxAge) + if Intended(g, w, maxAge) then [g] else []
    ensures OthersOf(r + [g], w, maxAge)
         == OthersOf(r, w, maxAge) + if Intended(g, w, maxAge) then [] else [g]
  {
    assert (r + [g])[..|r|] == r;
  }

  lemma {:induction false} WithoutFirstIntended<T>(s: seq<Group<T>>, n: nat, w: int, maxAge: int)
    requires n <= |IntendedOf(s, w, maxAge)| == |IntendedPositions(s, w, maxAge)|
    ensures IntendedOf(Without(s, IntendedPositions(s, w, maxAge)[..n]), w, maxAge)
         == IntendedOf(s, w, maxAge)[n..]
    ensures OthersOf(Without(s, IntendedPositions(s, w, maxAge)[..n]), w, maxAge)
         == OthersOf(s, w, maxAge)
  {
    if s == [] {
      NoGroups<T>(w, maxAge);
    } else {
      var m := |s| - 1;
      var p', before := IntendedPositions(s[..m], w, maxAge), IntendedOf(s[..m], w, maxAge);
      AtIntended(s[..m], w, maxAge);
      assert s == s[..m] + [s[m]];
      FilterSnoc(s[..m], s[m], w, maxAge);
      if n <= |p'| {
        WithoutFirstIntended(s[..m], n, w, maxAge);
        KeepLast(s, n, w, maxAge);
        FilterSnoc(Without(s[..m], p'[..n]), s[m], w, maxAge);
        DropThenSnoc(before, n, s[m]);
      } else {
        WithoutFirstIntended(s[..m], |p'|, w, maxAge);
        DropLast(s, n, w, maxAge);
        assert before[|p'|..] == [] && (before + [s[m]])[n..] == [];
      }
    }
  }

  lemma NoGroups<T>(w: int, maxAge: int)
    ensures IntendedOf<T>([], w, maxAge) == [] && OthersOf<T>([], w, maxAge) == []
    ensures IntendedPositions<T>([], w, maxAge) == [] && Without<Group<T>>([], []) == []
  {}

  lemma DropThenSnoc<T>(x: seq<T>, n: nat, y: T)
    requires n <= |x|
    ensures (x + [y])[n..] == x[n..] + [y]
  {}

  lemma DropLast<T>(s: seq<Group<T>>, n: nat, w: int, maxAge: int)
    requires s != [] && |IntendedPositions(s[..|s| - 1], w, maxAge)| < n <= |IntendedPositions(s, w, maxAge)|
    ensures Intended(s[|s| - 1], w, maxAge)
    ensures var p' := IntendedPositions(s[..|s| - 1], w, maxAge);
            Without(s, IntendedPositions(s, w, maxAge)[..n]) == Without(s[..|s| - 1], p'[..|p'|])
  {
    var m := |s| - 1;
    var p' := IntendedPositions(s[..m], w, maxAge);
    assert p'[..|p'|] == p';
    assert IntendedPositions(s, w, maxAge)[..n] == p' + [m];
    WithoutOutside(s[..m], p', m);
  }

  lemma KeepLast<T>(s: seq<Group<T>>, n: nat, w: int, maxAge: int)
    requires s != [] && n <= |IntendedPositions(s[..|s| - 1], w, maxAge)| <= |IntendedPositions(s, w, maxAge)|
    ensures Without(s, IntendedPositions(s, w, maxAge)[..n])
         == Without(s[..|s| - 1], IntendedPositions(s[..|s| - 1], w, maxAge)[..n]) + [s[|s| - 1]]
  {
    var m := |s| - 1;
    var p, p' := IntendedPositions(s, w, maxAge), IntendedPositions(s[..m], w, maxAge);
    assert p[..n] == p'[..n];
    assert m !in p'[..n];
  }

  /** Sampling is first-in first-out among the groups meant for this step and leaves every
      other group where it was: what is selected, followed by what is left of the intended
      groups, is exactly the intended groups of before. */
  lemma SampleIsFifo<T>(s: seq<Group<T>>, n: nat, w: int, maxAge: int)
    requires ReplyTo(s, n, w, maxAge).Batch?
    ensures |Selected(s, n, w, maxAge)| == n
    ensures forall g :: g in Selected(s, n, w, maxAge) ==> Intended(g, w, maxAge)
    ensures IntendedOf(s, w, maxAge)
         == Selected(s, n, w, maxAge) + IntendedOf(Remaining(s, n, w, maxAge), w, maxAge)
    ensures OthersOf(s, w, maxAge) == OthersOf(Remaining(s, n, w, maxAge), w, maxAge)
  {
    AtIntended(s, w, maxAge);
    PositionsIntended(s, w, maxAge);
    WithoutFirstIntended(s, n, w, maxAge);
    var p := IntendedPositions(s, w, maxAge);
    assert At(s, p[..n]) == At(s, p)[..n];
  }

  /** Nothing is lost or duplicated: a sampled buffer splits into the selected groups and
      the remaining ones; any other reply leaves the buffer as it was. */
  lemma SampleConserves<T>(s: seq<Group<T>>, n: nat, w: int, maxAge: int)
    ensures multiset(s) == multiset(Selected(s, n, w, maxAge)) + multiset(Remaining(s, n, w, maxAge))
    ensures !ReplyTo(s, n, w, maxAge).Batch? ==> Remaining(s, n, w, maxAge) == s
  {
    if Samples(s, n, w, maxAge) {
      SampleIsFifo(s, n, w, maxAge);
      SplitIntended(s, w, maxAge);
      SplitIntended(Remaining(s, n, w, maxAge), w, maxAge);
    } else {
      WithoutNothing(s);
    }
  }

  lemma {:induction false} WithoutNothing<T>(s: seq<T>)
    ensures Without(s, []) == s
  {
    if s != [] { WithoutNothing(s[..|s| - 1]); }
  }

  lemma {:induction false} SplitIntended<T>(s: seq<Group<T>>, w: int, maxAge: int)
    ensures multiset(s) == multiset(IntendedOf(s, w, maxAge)) + multiset(OthersOf(s, w, maxAge))
  {
    if s != [] {
      var m := |s| - 1;
      assert s == s[..m] + [s[m]];
      SplitIntended(s[..m], w, maxAge);
    }
  }

  lemma {:induction false} SumVersionsBounds<T>(s: seq<Group<T>>, lo: int, hi: int)
    requires forall g :: g in s ==> lo <= g.version <= hi
    ensures |s| * lo <= SumVersions(s) <= |s| * hi
  {
    if s != [] {
      var m := |s| - 1;
      SumVersionsBounds(s[..m], lo, hi);
      assert s[m] in s;
      assert |s| * lo == m * lo + lo && |s| * hi == m * hi + hi;
    }
  }

  /** The reported age of a batch lies in the age window. */
  lemma AverageAgeWithinWindow<T>(s: seq<Group<T>>, n: nat, w: int, maxAge: int)
    requires ReplyTo(s, n, w, maxAge).Batch?
    ensures 0.0 <= ReplyTo(s, n, w, maxAge).averageAge <= maxAge as real
  {
    SampleIsFifo(s, n, w, maxAge);
    var chosen := Selected(s, n, w, maxAge);
    SumVersionsBounds(chosen, w - maxAge, w);
    DivideBounds(SumVersions(chosen), n, w - maxAge, w);
  }

  lemma DivideBounds(sum: int, n: nat, lo: int, hi: int)
    requires n > 0 && n * lo <= sum <= n * hi
    ensures lo as real <= sum as real / n as real <= hi as real
  {
    assert (n * lo) as real == n as real * lo as real;
    assert (n * hi) as real == n as real * hi as real;
  }

  // ---------------------------------------------------------------- the reply, group by group

  predicate Before(p: seq<nat>) { forall i, j :: 0 <= i < j < |p| ==> p[i] < p[j] }

  /** The intended groups are those generated in the age window and aimed at `w`, in push order. */
  lemma {:induction false} IntendedExactly<T>(s: seq<Group<T>>, w: int, maxAge: int)
    ensures |IntendedOf(s, w, maxAge)| == |IntendedPositions(s, w, maxAge)| && Before(IntendedPositions(s, w, maxAge))
    ensures forall i :: 0 <= i < |IntendedOf(s, w, maxAge)| ==>
              IntendedOf(s, w, maxAge)[i] == s[IntendedPositions(s, w, maxAge)[i]]
    ensures forall k: nat :: k < |s| ==>
              (k in IntendedPositions(s, w, maxAge) <==>
                s[k].target == w && 0 <= s[k].version && w - maxAge <= s[k].version <= w)
  {
    if s != [] { IntendedExactly(s[..|s| - 1], w, maxAge); }
  }

  /** How many versions each group lags behind the trainer. */
  function Ages<T>(s: seq<Group<T>>, w: int): (r: seq<int>)
    ensures |r| == |s| && forall i :: 0 <= i < |r| ==> r[i] == w - s[i].version
  {
    seq(|s|, i requires 0 <= i < |s| => w - s[i].version)
  }

  lemma {:induction false} SumOfAges<T>(s: seq<Group<T>>, w: int)
    ensures Sum(Ages(s, w)) == |s| * w - SumVersions(s)
  {
    if s != [] {
      var m := |s| - 1;
      SumOfAges(s[..m], w);
      assert Ages(s, w)[..m] == Ages(s[..m], w);
      assert |s| * w == m * w + w;
    }
  }

  /** A batch is the trajectories of the `n` oldest intended groups, one each and in push
      order, and the reported age is the average of their ages. */
  lemma BatchIsOldestIntended<T>(s: seq<Group<T>>, n: nat, w: int, maxAge: int)
    requires ReplyTo(s, n, w, maxAge).Batch?
    ensures var reply, mine := ReplyTo(s, n, w, maxAge), IntendedOf(s, w, maxAge);
            && 0 < n == |reply.trajectories| <= |mine|
            && (forall i :: 0 <= i < n ==> reply.trajectories[i] == mine[i].trajectory)
            && TimesCount(reply.averageAge, n) == Sum(Ages(mine[..n], w)) as real
  {
    SelectedIsFront(s, n, w, maxAge);
    BatchOf(s, n, w, maxAge, IntendedOf(s, w, maxAge)[..n]);
    AgeOfBatch(IntendedOf(s, w, maxAge)[..n], n, w, ReplyTo(s, n, w, maxAge).averageAge);
  }

  lemma AgeOfBatch<T>(chosen: seq<Group<T>>, n: nat, w: int, age: real)
    requires 0 < n == |chosen| && age == w as real - SumVersions(chosen) as real / n as real
    ensures TimesCount(age, n) == Sum(Ages(chosen, w)) as real
  {
    SumOfAges(chosen, w);
    MeanAge(n, w, SumVersions(chosen), age);
  }

  /** An average times the number of its terms. */
  function TimesCount(average: real, n: nat): real { average * n as real }

  lemma SelectedIsFront<T>(s: seq<Group<T>>, n: nat, w: int, maxAge: int)
    requires ReplyTo(s, n, w, maxAge).Batch?
    ensures n <= |IntendedOf(s, w, maxAge)| && Selected(s, n, w, maxAge) == IntendedOf(s, w, maxAge)[..n]
  {
    AtIntended(s, w, maxAge);
  }

  lemma BatchOf<T>(s: seq<Group<T>>, n: nat, w: int, maxAge: int, chosen: seq<Group<T>>)
    requires ReplyTo(s, n, w, maxAge).Batch? && chosen == Selected(s, n, w, maxAge) && |chosen| == n
    ensures 0 < n == |ReplyTo(s, n, w, maxAge).trajectories|
    ensures forall i :: 0 <= i < n ==> ReplyTo(s, n, w, maxAge).trajectories[i] == chosen[i].trajectory
    ensures ReplyTo(s, n, w, maxAge).averageAge == w as real - SumVersions(chosen) as real / n as real
  {}

  lemma MeanAge(n: nat, w: int, sum: int, age: real)
    requires 0 < n && age == w as real - sum as real / n as real
    ensures age * n as real == (n * w - sum) as real
  {
    assert (sum as real / n as real) * n as real == sum as real;
    assert (n * w) as real == n as real * w as real;
  }

  /** Positions of the groups generated before version `minVersion`. */
  function OlderPositions<T>(s: seq<Group<T>>, minVersion: int): set<nat> {
    set i: nat | i < |s| && s[i].version < minVersion
  }

  lemma {:induction false} CountOlderIsSize<T>(s: seq<Group<T>>, minVersion: int)
    ensures CountOlder(s, minVersion) == |OlderPositions(s, minVersion)|
  {
    if s != [] {
      var m := |s| - 1;
      CountOlderIsSize(s[..m], minVersion);
      var rest := OlderPositions(s[..m], minVersion);
      assert OlderPositions(s, minVersion) == if s[m].version < minVersion then rest + {m} else rest;
    }
  }

  lemma {:induction false} WindowHoldsIntended<T>(s: seq<Group<T>>, w: int, maxAge: int)
    ensures |IntendedPositions(s, w, maxAge)| <= CountInWindow(s, w, maxAge)
  {
    if s != [] { WindowHoldsIntended(s[..|s| - 1], w, maxAge); }
  }

  /** When each reply is given: the error counts the groups that are too old; without any, a
      batch is given exactly when `n` > 0 groups are intended for this step. */
  lemma ReplyMeans<T>(s: seq<Group<T>>, n: nat, w: int, maxAge: int)
    ensures var reply, older := ReplyTo(s, n, w, maxAge), OlderPositions(s, Max(0, w - maxAge));
            && (reply.OlderThanWindow? <==> older != {})
            && (reply.OlderThanWindow? ==> reply.count == |older|)
            && (reply.Batch? <==> older == {} && 0 < n <= |IntendedOf(s, w, maxAge)|)
            && (reply.NoGroupsRequested? <==>
                  older == {} && n == 0 && exists g :: g in s && g.version <= w)
  {
    CountOlderIsSize(s, Max(0, w - maxAge));
    IntendedExactly(s, w, maxAge);
    WindowHoldsIntended(s, w, maxAge);
    SomeInWindow(s, w, maxAge);
  }

  lemma {:induction false} SomeInWindow<T>(s: seq<Group<T>>, w: int, maxAge: int)
    ensures CountInWindow(s, w, maxAge) > 0 <==> exists g :: g in s && InWindow(g, w, maxAge)
  {
    if s != [] {
      var m := |s| - 1;
      assert s == s[..m] + [s[m]];
      SomeInWindow(s[..m], w, maxAge);
    }
  }

  // ---------------------------------------------------------------- the class

  class ReplayBuffer<T> {
    const maxSize: int
    var trajectories: seq<T>
    var trajectoryVersions: seq<int>
    var targetWeightVersions: seq<int>
    var lastTargetWeightAlreadyGenerated: int

    ghost predicate Valid()
      reads this
    {
      && 0 < maxSize
      && |trajectories| == |trajectoryVersions| == |targetWeightVersions|
    }

    ghost function Groups(): (s: seq<Group<T>>)
      requires Valid()
      reads this
      ensures |s| == |trajectories|
    {
      Zip(trajectories, trajectoryVersions, targetWeightVersions)
    }

    ghost function Value(): Buffer<T>
      requires Valid()
      reads this
    {
      Buffer(maxSize, Groups(), lastTargetWeightAlreadyGenerated)
    }

    constructor (size: int)
      requires 0 < size
      ensures Valid() && Value() == Buffer(size, [], -1)
    {
      maxSize := size;
      trajectories, trajectoryVersions, targetWeightVersions := [], [], [];
      lastTargetWeightAlreadyGenerated := -1;
    }

    /** The original's constructor raises ValueError unless the size is positive. */
    static method Create(size: int) returns (b: ReplayBuffer?<T>)
      ensures b == null <==> size <= 0
      ensures b != null ==> fresh(b) && b.Valid() && b.Value() == Buffer(size, [], -1)
    {
      if size <= 0 { return null; }
      b := new ReplayBuffer(size);
    }

    method PushWithWaitSignal(trajectory: T, version: int, target: int) returns (status: PushStatus)
      requires Valid()
      modifies this
      ensures Valid()
      ensures status == PushStatusOf(old(Value()))
      ensures Value() == AfterPush(old(Value()), Group(trajectory, version, target))
    {
      if |trajectories| >= maxSize {
        return Full;
      }
      trajectories := trajectories + [trajectory];
      trajectoryVersions := trajectoryVersions + [version];
      targetWeightVersions := targetWeightVersions + [target];
      lastTargetWeightAlreadyGenerated := Max(lastTargetWeightAlreadyGenerated, target);
      status := Success;
    }

    method Sample(n: nat, w: int, maxAge: int) returns (reply: Reply<T>)
      requires Valid()
      modifies this
      ensures Valid() && lastTargetWeightAlreadyGenerated == old(lastTargetWeightAlreadyGenerated)
      ensures reply == ReplyTo(old(Groups()), n, w, maxAge)
      ensures Groups() == Remaining(old(Groups()), n, w, maxAge)
    {
      ghost var s := Groups();
      var early, selected := Select(n, w, maxAge);
      if early.Some? {
        WithoutNothing(s);
        return early.value;
      }
      PositionsAscend(s, w, maxAge);
      var items, sum := Collect(selected);
      Remove(selected);
      reply := Batch(items, w as real - sum as real / n as real);
    }

    /** The checks of `sample`: an early reply, or the positions to take. */
    method Select(n: nat, w: int, maxAge: int) returns (early: Option<Reply<T>>, selected: seq<nat>)
      requires Valid()
      ensures early.Some? ==> !Samples(Groups(), n, w, maxAge) && early.value == ReplyTo(Groups(), n, w, maxAge)
      ensures early.None? ==> Samples(Groups(), n, w, maxAge) && selected == Chosen(Groups(), n, w, maxAge)
    {
      selected := [];
      if |trajectories| == 0 {
        return Some(NothingYet), [];
      }
      var older := CountOlderVersions(Max(0, w - maxAge));
      if older > 0 {
        return Some(OlderThanWindow(older)), [];
      }
      var valid, intended := FindIndices(w, maxAge);
      if valid == 0 || valid < n || |intended| < n {
        return Some(NothingYet), [];
      }
      if n == 0 {
        return Some(NoGroupsRequested), [];
      }
      early, selected := None, intended[..n];
    }

    method CountOlderVersions(minValid: int) returns (older: nat)
      requires Valid()
      ensures older == CountOlder(Groups(), minValid)
    {
      older := 0;
      ghost var s := Groups();
      for i := 0 to |trajectoryVersions|
        invariant older == CountOlder(s[..i], minValid)
      {
        assert s[..i + 1][..i] == s[..i];
        if trajectoryVersions[i] < minValid {
          older := older + 1;
        }
      }
      assert s[..|s|] == s;
    }

    method FindIndices(w: int, maxAge: int) returns (valid: nat, intended: seq<nat>)
      requires Valid()
      ensures valid == CountInWindow(Groups(), w, maxAge)
      ensures intended == IntendedPositions(Groups(), w, maxAge)
    {
      valid, intended := 0, [];
      ghost var s := Groups();
      var minValid := Max(0, w - maxAge);
      for i := 0 to |trajectoryVersions|
        invariant valid == CountInWindow(s[..i], w, maxAge)
        invariant intended == IntendedPositions(s[..i], w, maxAge)
      {
        assert s[..i + 1][..i] == s[..i];
        if minValid <= trajectoryVersions[i] <= w {
          valid := valid + 1;
          if targetWeightVersions[i] == w {
            intended := intended + [i];
          }
        }
      }
      assert s[..|s|] == s;
    }

    method Collect(selected: seq<nat>) returns (items: seq<T>, sum: int)
      requires Valid()
      requires forall i :: 0 <= i < |selected| ==> selected[i] < |trajectories|
      ensures items == Trajectories(At(Groups(), selected))
      ensures sum == SumVersions(At(Groups(), selected))
    {
      items, sum := [], 0;
      ghost var chosen := At(Groups(), selected);
      for i := 0 to |selected|
        invariant items == Trajectories(chosen)[..i]
        invariant sum == SumVersions(chosen[..i])
      {
        assert chosen[..i + 1][..i] == chosen[..i];
        items := items + [trajectories[selected[i]]];
        sum := sum + trajectoryVersions[selected[i]];
      }
      assert chosen[..|chosen|] == chosen;
    }

    /** Pops the selected positions, highest first, from the three lists. */
    method Remove(selected: seq<nat>)
      requires Valid()
      requires forall i :: 0 <= i < |selected| ==> selected[i] < |trajectories|
      requires Ascending(selected)
      modifies this`trajectories, this`trajectoryVersions, this`targetWeightVersions
      ensures Valid()
      ensures Groups() == Without(old(Groups()), selected)
    {
      ghost var s := Groups();
      WithoutNothing(s);
      var k := |selected|;
      assert selected[k..] == [];
      while k > 0
        invariant 0 <= k <= |selected|
        invariant Valid()
        invariant Groups() == Without(s, selected[k..])
      {
        k := k - 1;
        var idx := selected[k];
        assert selected[k..] == [idx] + selected[k + 1..];
        PopLower(s, idx, selected[k + 1..]);
        PopAt(idx);
      }
      assert selected[0..] == selected;
    }

    /** list.pop(idx) on the three lists. */
    method PopAt(idx: nat)
      requires Valid() && idx < |trajectories|
      modifies this`trajectories, this`trajectoryVersions, this`targetWeightVersions
      ensures Valid()
      ensures Groups() == old(Groups())[..idx] + old(Groups())[idx + 1..]
    {
      trajectories := trajectories[..idx] + trajectories[idx + 1..];
      trajectoryVersions := trajectoryVersions[..idx] + trajectoryVersions[idx + 1..];
      targetWeightVersions := targetWeightVersions[..idx] + targetWeightVersions[idx + 1..];
    }
  }

  ghost function Zip<T>(a: seq<T>, b: seq<int>, c: seq<int>): (s: seq<Group<T>>)
    requires |a| == |b| == |c|
    ensures |s| == |a|
    ensures forall i :: 0 <= i < |a| ==> s[i] == Group(a[i], b[i], c[i])
  {
    seq(|a|, i requires 0 <= i < |a| => Group(a[i], b[i], c[i]))
  }

  /** Dropping a position below all those already dropped is one more pop. */
  lemma {:induction false} PopLower<T>(s: seq<T>, idx: nat, higher: seq<nat>)
    requires idx < |s|
    requires forall h :: h in higher ==> idx < h
    ensures idx < |Without(s, higher)|
    ensures Without(s, [idx] + higher)
         == Without(s, higher)[..idx] + Without(s, higher)[idx + 1..]
  {
    var m := |s| - 1;
    if idx == m {
      WithoutLower(s[..m], higher);
      WithoutLower(s[..m], [idx] + higher);
    } else {
      PopLower(s[..m], idx, higher);
      PopSnoc(Without(s[..m], higher), idx, if m in higher then [] else [s[m]]);
      assert m in [idx] + higher <==> m in higher;
    }
  }

  lemma PopSnoc<T>(rest: seq<T>, idx: nat, tail: seq<T>)
    requires idx < |rest|
    ensures (rest + tail)[..idx] + (rest + tail)[idx + 1..] == rest[..idx] + rest[idx + 1..] + tail
  {}

  lemma {:induction false} WithoutLower<T>(s: seq<T>, positions: seq<nat>)
    requires forall p :: p in positions ==> |s| <= p
    ensures Without(s, positions) == s
  {
    if s != [] { WithoutLower(s[..|s| - 1], positions); }
  }
}
