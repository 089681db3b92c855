/** Config inheritance and its minimisation (`load_config_with_inheritance`, `_prune_equal`,
    `minimize`, tools/config_cli.py). Values are typed trees; the files behind `defaults` are
    a function from their names to their expanded configs. */
module ConfigMinimize {

  datatype Scalar = Null | Bool(b: bool) | Number(n: int) | Text(s: string)

  datatype Cfg = Leaf(value: Scalar) | List(items: seq<Cfg>) | Dict(entries: map<string, Cfg>)

  const EMPTY_DICT: Cfg := Dict(map[])
  const EMPTY_LIST: Cfg := List([])

  // ---------------------------------------------------------------- merging

  /** Mappings merge key by key; anything else is replaced. */
  function Merge(base: Cfg, child: Cfg): Cfg
    decreases child
  {
    if base.Dict? && child.Dict? then
      Dict(map k | k in base.entries.Keys + child.entries.Keys ::
             if k !in child.entries then base.entries[k]
             else if k in base.entries then Merge(base.entries[k], child.entries[k])
             else child.entries[k])
    else child
  }

  /** `OmegaConf.merge` raises TypeError where a mapping meets a list. */
  predicate Mergeable(base: Cfg, child: Cfg)
    decreases child
  {
    if base.Dict? && child.Dict? then
      forall k :: k in base.entries && k in child.entries ==> Mergeable(base.entries[k], child.entries[k])
    else !(base.Dict? && child.List?) && !(base.List? && child.Dict?)
  }

  datatype Loading = Clash | Loaded(cfg: Cfg)

  function TryMerge(base: Cfg, child: Cfg): Loading {
    if Mergeable(base, child) then Loaded(Merge(base, child)) else Clash
  }

  /** `base` already contains all that `b` would set. */
  predicate Absorbs(base: Cfg, b: Cfg) { Merge(base, b) == base }

  lemma {:induction false} MergeAbsorbs(r: Cfg, b: Cfg)
    ensures Absorbs(Merge(r, b), b)
    decreases b
  {
    if b.Dict? {
      var m := Merge(r, b);
      forall k | k in b.entries ensures k in m.entries && Merge(m.entries[k], b.entries[k]) == m.entries[k] {
        if r.Dict? && k in r.entries {
          MergeAbsorbs(r.entries[k], b.entries[k]);
        } else {
          MergeSelf(b.entries[k]);
        }
      }
      assert Merge(m, b).entries == m.entries;
    }
  }

  lemma {:induction false} MergeSelf(b: Cfg)
    ensures Merge(b, b) == b
    decreases b
  {
    if b.Dict? {
      forall k | k in b.entries ensures Merge(b.entries[k], b.entries[k]) == b.entries[k] {
        MergeSelf(b.entries[k]);
      }
      assert Merge(b, b).entries == b.entries;
    }
  }

  // ---------------------------------------------------------------- what a merge reads as

  datatype Found = Nothing | Found(value: Cfg)

  /** The value at a path of keys. */
  function At(c: Cfg, path: seq<string>): Found
    decreases path
  {
    if path == [] then Found(c)
    else if c.Dict? && path[0] in c.entries then At(c.entries[path[0]], path[1..])
    else Nothing
  }

  /** Along the path there are mappings until a key is missing. */
  predicate Silent(c: Cfg, path: seq<string>)
    decreases path
  {
    path != [] && c.Dict? && (path[0] in c.entries ==> Silent(c.entries[path[0]], path[1..]))
  }

  /** The merged config has a value other than a mapping at a path exactly when the child has
      it there, or the base has it and the child says nothing about that path. */
  lemma {:induction false} MergeReads(base: Cfg, child: Cfg, path: seq<string>, v: Cfg)
    requires !v.Dict?
    ensures At(Merge(base, child), path) == Found(v)
       <==> At(child, path) == Found(v) || (At(base, path) == Found(v) && Silent(child, path))
    decreases path
  {
    if path != [] && base.Dict? && child.Dict? && path[0] in base.entries && path[0] in child.entries {
      MergeReads(base.entries[path[0]], child.entries[path[0]], path[1..], v);
    }
  }

  /** A mapping meets a list at the path. */
  predicate MeetAt(base: Cfg, child: Cfg, path: seq<string>) {
    && At(base, path).Found? && At(child, path).Found?
    && var x, y := At(base, path).value, At(child, path).value;
       (x.Dict? && y.List?) || (x.List? && y.Dict?)
  }

  /** Merging fails exactly when somewhere a mapping meets a list. */
  lemma {:induction false} MergeFailsIff(base: Cfg, child: Cfg)
    ensures TryMerge(base, child).Clash? <==> exists path :: MeetAt(base, child, path)
    decreases child
  {
    if Mergeable(base, child) {
      forall path ensures !MeetAt(base, child, path) {
        NoMeeting(base, child, path);
      }
    } else if base.Dict? && child.Dict? {
      var k :| k in base.entries && k in child.entries && !Mergeable(base.entries[k], child.entries[k]);
      MergeFailsIff(base.entries[k], child.entries[k]);
      var path :| MeetAt(base.entries[k], child.entries[k], path);
      assert ([k] + path)[1..] == path;
      assert MeetAt(base, child, [k] + path);
    } else {
      assert MeetAt(base, child, []);
    }
  }

  lemma {:induction false} NoMeeting(base: Cfg, child: Cfg, path: seq<string>)
    requires Mergeable(base, child)
    ensures !MeetAt(base, child, path)
    decreases path
  {
    if path != [] && base.Dict? && child.Dict? && path[0] in base.entries && path[0] in child.entries {
      NoMeeting(base.entries[path[0]], child.entries[path[0]], path[1..]);
    }
  }

  // ---------------------------------------------------------------- pruning

  /** What is left of a value, or the sentinel for one to be dropped. */
  datatype Pruned = Remove | Keep(value: Cfg)

  predicate HasContent(p: Pruned) { p.Keep? && p.value != EMPTY_DICT && p.value != EMPTY_LIST }

  function Prune(a: Cfg, b: Cfg): (p: Pruned)
    ensures a.Dict? && b.Dict? ==> p.Keep? && p.value.Dict?
    decreases a
  {
    if a.Dict? && b.Dict? then
      Keep(Dict(map k | k in a.entries && (k !in b.entries || HasContent(Prune(a.entries[k], b.entries[k]))) ::
                  if k in b.entries then Prune(a.entries[k], b.entries[k]).value else a.entries[k]))
    else if a.List? && b.List? && |a.items| == |b.items| then
      if a == b then Remove else Keep(a)
    else if a == b then Remove
    else Keep(a)
  }

  /** No empty list overrides another value and no empty mapping overrides something that is
      not a mapping, at any depth where both configs have mappings. */
  predicate Safe(a: Cfg, b: Cfg)
    decreases a
  {
    if a.Dict? && b.Dict? then
      forall k :: k in a.entries && k in b.entries ==> Safe(a.entries[k], b.entries[k])
    else if a == EMPTY_LIST then b == EMPTY_LIST
    else a != EMPTY_DICT
  }

  /** What merging yields for a value whose pruned form may have been dropped. */
  function Applied(base: Cfg, p: Pruned): Cfg {
    if HasContent(p) then Merge(base, p.value) else base
  }

  lemma MergeNothing(base: Cfg)
    requires base.Dict?
    ensures Merge(base, EMPTY_DICT) == base
  {
    assert Merge(base, EMPTY_DICT).entries == base.entries;
  }

  lemma AbsorbsDict(base: Cfg, b: Cfg)
    requires Absorbs(base, b)
    ensures b.Dict? ==> base.Dict? && forall k :: k in b.entries ==>
              k in base.entries && Absorbs(base.entries[k], b.entries[k])
    ensures !b.Dict? ==> base == b
  {
    if b.Dict? {
      assert base.Dict?;
      forall k | k in b.entries ensures k in base.entries && Absorbs(base.entries[k], b.entries[k]) {
        assert k in Merge(base, b).entries;
        assert Merge(base, b).entries[k] == base.entries[k];
      }
    }
  }

  /** For any base that has absorbed what the value was pruned against, the pruned value
      means the same as the original exactly when the original is safe. */
  lemma {:induction false} PruneValue(base: Cfg, b: Cfg, a: Cfg)
    requires Absorbs(base, b)
    ensures Applied(base, Prune(a, b)) == Merge(base, a) <==> Safe(a, b)
    decreases a
  {
    AbsorbsDict(base, b);
    if a.Dict? && b.Dict? {
      forall k | k in a.entries && k in b.entries ensures RightAt(base, b, a, k) {
        PruneValue(base.entries[k], b.entries[k], a.entries[k]);
      }
      PruneDict(base, b, a);
    }
  }

  /** One key the child shares with the base. */
  lemma SharedKey(base: Cfg, b: Cfg, a: Cfg, k: string)
    requires a.Dict? && b.Dict? && base.Dict? && k in a.entries && k in b.entries && k in base.entries
    ensures k in Merge(base, Prune(a, b).value).entries && k in Merge(base, a).entries
    ensures Merge(base, Prune(a, b).value).entries[k] == Applied(base.entries[k], Prune(a.entries[k], b.entries[k]))
    ensures Merge(base, a).entries[k] == Merge(base.entries[k], a.entries[k])
  {}

  /** One key it does not share. */
  lemma OtherKey(base: Cfg, b: Cfg, a: Cfg, k: string)
    requires a.Dict? && b.Dict? && base.Dict? && !(k in a.entries && k in b.entries)
    ensures k in Merge(base, Prune(a, b).value).entries <==> k in Merge(base, a).entries
    ensures k in Merge(base, a).entries ==> Merge(base, Prune(a, b).value).entries[k] == Merge(base, a).entries[k]
  {}

  /** Pruning is right for the value at `k` exactly when that value is safe. */
  ghost predicate RightAt(base: Cfg, b: Cfg, a: Cfg, k: string)
    requires a.Dict? && b.Dict? && base.Dict? && k in a.entries && k in b.entries && k in base.entries
  {
    Applied(base.entries[k], Prune(a.entries[k], b.entries[k])) == Merge(base.entries[k], a.entries[k])
    <==> Safe(a.entries[k], b.entries[k])
  }

  lemma SafeDict(base: Cfg, b: Cfg, a: Cfg)
    requires a.Dict? && b.Dict? && base.Dict? && (forall k :: k in b.entries ==> k in base.entries) && Safe(a, b)
    requires forall k :: k in a.entries && k in b.entries ==> RightAt(base, b, a, k)
    ensures Merge(base, Prune(a, b).value) == Merge(base, a)
  {
    var x, y := Merge(base, Prune(a, b).value).entries, Merge(base, a).entries;
    forall k ensures k in x <==> k in y ensures k in x ==> x[k] == y[k] {
      if k in a.entries && k in b.entries {
        SharedKey(base, b, a, k);
        assert RightAt(base, b, a, k);
      } else {
        OtherKey(base, b, a, k);
      }
    }
    assert x == y;
  }

  lemma UnsafeDict(base: Cfg, b: Cfg, a: Cfg, k: string)
    requires a.Dict? && b.Dict? && base.Dict? && k in a.entries && k in b.entries && k in base.entries
    requires !Safe(a.entries[k], b.entries[k]) && RightAt(base, b, a, k)
    ensures Merge(base, Prune(a, b).value) != Merge(base, a)
  {
    SharedKey(base, b, a, k);
  }

  lemma PruneDict(base: Cfg, b: Cfg, a: Cfg)
    requires a.Dict? && b.Dict? && base.Dict? && forall k :: k in b.entries ==> k in base.entries
    requires forall k :: k in a.entries && k in b.entries ==> RightAt(base, b, a, k)
    ensures Applied(base, Prune(a, b)) == Merge(base, a) <==> Safe(a, b)
  {
    MergeNothing(base);
    if Safe(a, b) {
      SafeDict(base, b, a);
    } else {
      var k :| k in a.entries && k in b.entries && !Safe(a.entries[k], b.entries[k]);
      assert RightAt(base, b, a, k);
      UnsafeDict(base, b, a, k);
    }
  }

  /** Pruning never makes a merge fail. */
  lemma {:induction false} PrunedMerges(base: Cfg, b: Cfg, a: Cfg)
    requires Absorbs(base, b) && Mergeable(base, a) && Prune(a, b).Keep?
    ensures Mergeable(base, Prune(a, b).value)
    decreases a
  {
    AbsorbsDict(base, b);
    if a.Dict? && b.Dict? {
      var p := Prune(a, b).value;
      forall k | k in base.entries && k in p.entries ensures Mergeable(base.entries[k], p.entries[k]) {
        if k in b.entries { PrunedMerges(base.entries[k], b.entries[k], a.entries[k]); }
      }
    }
  }

  /** What is left of a value merges, if anything is left. */
  predicate RestMerges(base: Cfg, p: Pruned) { HasContent(p) ==> Mergeable(base, p.value) }

  /** Pruning a safe child never makes a failing merge succeed. */
  lemma {:induction false} SafeMerges(base: Cfg, b: Cfg, a: Cfg)
    requires Absorbs(base, b) && Safe(a, b) && RestMerges(base, Prune(a, b))
    ensures Mergeable(base, a)
    decreases a
  {
    AbsorbsDict(base, b);
    if a.Dict? && b.Dict? {
      var p := Prune(a, b).value;
      forall k | k in base.entries && k in a.entries ensures Mergeable(base.entries[k], a.entries[k]) {
        if k in b.entries {
          assert HasContent(Prune(a.entries[k], b.entries[k])) ==> k in p.entries;
          SafeMerges(base.entries[k], b.entries[k], a.entries[k]);
        } else {
          assert k in p.entries;
        }
      }
    }
  }

  /** Merging the pruned child onto the expanded base does what merging the child does, down to
      the error where a mapping meets a list, if the child is safe; and for a child that
      merges at all only if it is. The base file may itself have parents. */
  lemma MinimisationKeepsMeaning(parents: Cfg, base: Cfg, child: Cfg)
    requires base.Dict? && child.Dict?
    ensures var expanded, pruned := Merge(parents, base), Prune(child, base).value;
            && (Safe(child, base) ==> TryMerge(expanded, pruned) == TryMerge(expanded, child))
            && (Mergeable(expanded, child) ==>
                  (TryMerge(expanded, pruned) == TryMerge(expanded, child) <==> Safe(child, base)))
  {
    var expanded := Merge(parents, base);
    MergeAbsorbs(parents, base);
    AbsorbsDict(expanded, base);
    PruneValue(expanded, base, child);
    MergeNothing(expanded);
    if Mergeable(expanded, child) {
      PrunedMerges(expanded, base, child);
    } else if Safe(child, base) && Mergeable(expanded, Prune(child, base).value) {
      SafeMerges(expanded, base, child);
    }
  }

  // ---------------------------------------------------------------- where it fails

  lemma EmptyListIsLost(k: string, x: Cfg)
    ensures var base, child := Dict(map[k := List([x])]), Dict(map[k := EMPTY_LIST]);
            Merge(base, Prune(child, base).value) == base != Merge(base, child)
  {
    var base, child := Dict(map[k := List([x])]), Dict(map[k := EMPTY_LIST]);
    assert Prune(child, base).value.entries == map[];
    MergeNothing(base);
    assert Merge(base, child).entries[k] == EMPTY_LIST;
  }

  lemma EmptyMappingIsLost(k: string, v: Scalar)
    ensures var base, child := Dict(map[k := Leaf(v)]), Dict(map[k := EMPTY_DICT]);
            Merge(base, Prune(child, base).value) == base != Merge(base, child)
  {
    var base, child := Dict(map[k := Leaf(v)]), Dict(map[k := EMPTY_DICT]);
    assert Prune(child, base).value.entries == map[];
    MergeNothing(base);
    assert Merge(base, child).entries[k] == EMPTY_DICT;
  }

  // ---------------------------------------------------------------- idempotent and minimal

  /** Pruning what was pruned changes nothing. */
  lemma {:induction false} PruneIdempotent(a: Cfg, b: Cfg)
    requires Prune(a, b).Keep?
    ensures Prune(Prune(a, b).value, b) == Prune(a, b)
    decreases a
  {
    if a.Dict? && b.Dict? {
      var p := Prune(a, b).value;
      forall k | k in p.entries && k in b.entries
        ensures Prune(p.entries[k], b.entries[k]) == Keep(p.entries[k]) && HasContent(Keep(p.entries[k]))
      {
        PruneIdempotent(a.entries[k], b.entries[k]);
      }
      assert Prune(p, b).value.entries == p.entries;
    }
  }

  /** A value that is kept does change the base. */
  lemma {:induction false} KeptChanges(a: Cfg, b: Cfg)
    requires HasContent(Prune(a, b))
    ensures Merge(b, Prune(a, b).value) != b
    decreases a
  {
    if a.Dict? && b.Dict? {
      var p := Prune(a, b).value;
      assert p.entries != map[];
      var k :| k in p.entries;
      var m := Merge(b, p);
      assert k in m.entries;
      if k in b.entries {
        KeptChanges(a.entries[k], b.entries[k]);
        assert m.entries[k] != b.entries[k];
      }
    }
  }

  /** `q` is `p` with entries left out, at any depth. */
  predicate Contained(q: Cfg, p: Cfg)
    decreases p
  {
    || q == p
    || (q.Dict? && p.Dict? &&
        forall k :: k in q.entries ==> k in p.entries && Contained(q.entries[k], p.entries[k]))
  }

  /** Nothing more could have been left out: every entry of the minimised config counts. */
  lemma {:induction false} PrunedIsMinimal(a: Cfg, b: Cfg, q: Cfg)
    requires a.Dict? && b.Dict? && Contained(q, Prune(a, b).value)
    requires Merge(b, q) == Merge(b, Prune(a, b).value)
    ensures q == Prune(a, b).value
    decreases a, 0
  {
    var p := Prune(a, b).value;
    assert q.Dict?;
    var x, y := Merge(b, q), Merge(b, p);
    forall k | k in p.entries ensures k in q.entries && q.entries[k] == p.entries[k] {
      assert k in y.entries && x.entries[k] == y.entries[k];
      if k in b.entries {
        KeptChanges(a.entries[k], b.entries[k]);
        assert k in q.entries;
        SameEntry(a.entries[k], b.entries[k], q.entries[k]);
      } else {
        assert k in q.entries;
      }
    }
    assert q.entries == p.entries;
  }

  lemma {:induction false} SameEntry(a: Cfg, b: Cfg, q: Cfg)
    requires HasContent(Prune(a, b)) && Contained(q, Prune(a, b).value)
    requires Merge(b, q) == Merge(b, Prune(a, b).value)
    ensures q == Prune(a, b).value
    decreases a, 1
  {
    if a.Dict? && b.Dict? {
      PrunedIsMinimal(a, b, q);
    } else if b.Dict? || !a.Dict? || !q.Dict? {
    } else {
      assert Merge(b, q) == q && Merge(b, a) == a;
    }
  }

  // ---------------------------------------------------------------- the command

  function Without(c: Cfg, key: string): (r: Cfg)
    requires c.Dict?
    ensures r.Dict? && key !in r.entries
  {
    Dict(c.entries - {key})
  }

  /** What the names in `defaults` load to: expanded mappings without a `defaults` key. */
  ghost predicate Loads(loaded: string -> Cfg) {
    forall d :: loaded(d).Dict? && "defaults" !in loaded(d).entries
  }

  datatype Names = Names(names: seq<string>) | BadNames

  /** `defaults` as a list of names; anything but a string or a list of strings is not. */
  function DefaultNames(v: Cfg): Names {
    match v
    case Leaf(Text(s)) => Names([s])
    case List(items) =>
      if forall i :: 0 <= i < |items| ==> items[i].Leaf? && items[i].value.Text?
      then Names(seq(|items|, i requires 0 <= i < |items| && items[i].Leaf? && items[i].value.Text? =>
                   items[i].value.s))
      else BadNames
    case _ => BadNames
  }

  /** The parents merged in order, onto an empty mapping. */
  function MergeParents(names: seq<string>, loaded: string -> Cfg): Loading {
    if names == [] then Loaded(EMPTY_DICT)
    else
      match MergeParents(names[..|names| - 1], loaded)
      case Clash => Clash
      case Loaded(front) => TryMerge(front, loaded(names[|names| - 1]))
  }

  function ExpandOnto(parents: Loading, child: Cfg): Loading {
    if parents.Clash? then Clash else TryMerge(parents.cfg, child)
  }

  /** `load_config_with_inheritance` on a loaded mapping. */
  function Expand(c: Cfg, loaded: string -> Cfg): Loading
    requires c.Dict?
  {
    if "defaults" in c.entries && DefaultNames(c.entries["defaults"]).Names? then
      ExpandOnto(MergeParents(DefaultNames(c.entries["defaults"]).names, loaded), Without(c, "defaults"))
    else Loaded(c)
  }

  /** Parent `i` has the value at the path and no later parent says anything about it. */
  predicate LastToSay(names: seq<string>, loaded: string -> Cfg, i: nat, path: seq<string>, v: Cfg)
    requires i < |names|
  {
    At(loaded(names[i]), path) == Found(v) && forall j :: i < j < |names| ==> Silent(loaded(names[j]), path)
  }

  ghost predicate SomeSays(names: seq<string>, loaded: string -> Cfg, path: seq<string>, v: Cfg) {
    exists i: nat :: i < |names| && LastToSay(names, loaded, i, path, v)
  }

  lemma LastSays(names: seq<string>, loaded: string -> Cfg, name: string, path: seq<string>, v: Cfg)
    ensures var last := loaded(name);
            SomeSays(names + [name], loaded, path, v)
            <==> (At(last, path) == Found(v) || (SomeSays(names, loaded, path, v) && Silent(last, path)))
  {
    var all := names + [name];
    if At(loaded(name), path) == Found(v) {
      assert LastToSay(all, loaded, |names|, path, v);
    } else if SomeSays(names, loaded, path, v) && Silent(loaded(name), path) {
      var i: nat :| i < |names| && LastToSay(names, loaded, i, path, v);
      assert LastToSay(all, loaded, i, path, v);
    } else if SomeSays(all, loaded, path, v) {
      var i: nat :| i < |all| && LastToSay(all, loaded, i, path, v);
      assert all[|names|] == name && i < |names|;
      forall j | i < j < |names| ensures Silent(loaded(names[j]), path) {
        assert all[j] == names[j];
      }
      assert LastToSay(names, loaded, i, path, v);
    }
  }

  /** The parents are overlaid in the order in which they are named: the last one that says
      anything about a path decides. */
  lemma {:induction false} ParentsRead(names: seq<string>, loaded: string -> Cfg, path: seq<string>, v: Cfg)
    requires !v.Dict? && MergeParents(names, loaded).Loaded?
    ensures At(MergeParents(names, loaded).cfg, path) == Found(v) <==> SomeSays(names, loaded, path, v)
  {
    if names != [] {
      var m := |names| - 1;
      ParentsRead(names[..m], loaded, path, v);
      MergeReads(MergeParents(names[..m], loaded).cfg, loaded(names[m]), path, v);
      LastSays(names[..m], loaded, names[m], path, v);
      assert names[..m] + [names[m]] == names;
    }
  }

  /** What a config file with parents means: its own values first, then those of the last
      parent that says anything about the path. */
  lemma ExpandReads(c: Cfg, loaded: string -> Cfg, path: seq<string>, v: Cfg)
    requires c.Dict? && !v.Dict? && "defaults" in c.entries && DefaultNames(c.entries["defaults"]).Names?
    requires Expand(c, loaded).Loaded?
    ensures var own, names := Without(c, "defaults"), DefaultNames(c.entries["defaults"]).names;
            At(Expand(c, loaded).cfg, path) == Found(v)
            <==> At(own, path) == Found(v) || (SomeSays(names, loaded, path, v) && Silent(own, path))
  {
    var names := DefaultNames(c.entries["defaults"]).names;
    ParentsRead(names, loaded, path, v);
    MergeReads(MergeParents(names, loaded).cfg, Without(c, "defaults"), path, v);
  }

  datatype Minimised = BadDefaults | Minimised(cfg: Cfg)

  /** `minimize` with the base taken from the child's own `defaults`, a single name. */
  function MinimizeInferred(child: Cfg, loaded: string -> Cfg): (r: Minimised)
    requires child.Dict?
  {
    if "defaults" in child.entries && child.entries["defaults"].Leaf? && child.entries["defaults"].value.Text? then
      var pruned := Prune(Without(child, "defaults"), loaded(child.entries["defaults"].value.s));
      if pruned.Keep? && pruned.value.Dict?
      then Minimised(Dict(pruned.value.entries["defaults" := child.entries["defaults"]]))
      else Minimised(Dict(map["defaults" := child.entries["defaults"]]))
    else BadDefaults
  }

  /** The command needs `defaults` to be a single name, and keeps it; all else that it writes
      are entries of the child. */
  lemma MinimizesIffOneName(child: Cfg, loaded: string -> Cfg)
    requires child.Dict? && Loads(loaded)
    ensures MinimizeInferred(child, loaded).Minimised?
       <==> "defaults" in child.entries && exists s :: child.entries["defaults"] == Leaf(Text(s))
    ensures MinimizeInferred(child, loaded).Minimised? ==>
              var out := MinimizeInferred(child, loaded).cfg;
              && out.Dict? && "defaults" in out.entries
              && out.entries["defaults"] == child.entries["defaults"]
              && out.entries.Keys <= child.entries.Keys
  {
    if "defaults" in child.entries && child.entries["defaults"].Leaf? && child.entries["defaults"].value.Text? {
      assert child.entries["defaults"] == Leaf(Text(child.entries["defaults"].value.s));
    }
  }

  lemma OneParent(name: string, loaded: string -> Cfg)
    requires loaded(name).Dict?
    ensures MergeParents([name], loaded) == Loaded(loaded(name))
  {
    assert [name][..0] == [];
    assert Merge(EMPTY_DICT, loaded(name)).entries == loaded(name).entries;
  }

  /** The minimised file expands to what the original expands to, or fails like it, if the
      child is safe against its expanded base; and for a child that loads only if it is. */
  lemma MinimizeInferredKeepsMeaning(child: Cfg, loaded: string -> Cfg)
    requires child.Dict? && Loads(loaded) && MinimizeInferred(child, loaded).Minimised?
    ensures MinimizeInferred(child, loaded).cfg.Dict?
    ensures var safe := Safe(Without(child, "defaults"), loaded(child.entries["defaults"].value.s));
            var same := Expand(MinimizeInferred(child, loaded).cfg, loaded) == Expand(child, loaded);
            (safe ==> same) && (Expand(child, loaded).Loaded? ==> (same <==> safe))
  {
    var name := child.entries["defaults"].value.s;
    var base, own := loaded(name), Without(child, "defaults");
    var out := MinimizeInferred(child, loaded).cfg;
    OneParent(name, loaded);
    assert Without(out, "defaults").entries == Prune(own, base).value.entries;
    assert Merge(EMPTY_DICT, base).entries == base.entries;
    MinimisationKeepsMeaning(EMPTY_DICT, base, own);
  }

  /** `minimize --base`: pruned against the raw base file, whose name becomes the only
      default; the child's own defaults are gone. */
  function MinimizeAgainst(child: Cfg, baseName: string, rawBase: Cfg): (r: Cfg)
    requires child.Dict? && rawBase.Dict?
    ensures r.Dict?
  {
    Dict(Prune(Without(child, "defaults"), rawBase).value.entries["defaults" := Leaf(Text(baseName))])
  }

  lemma PruneIgnoresDefaults(own: Cfg, raw: Cfg)
    requires own.Dict? && raw.Dict? && "defaults" !in own.entries
    ensures Prune(own, raw) == Prune(own, Without(raw, "defaults"))
  {
    assert Prune(own, raw).value.entries == Prune(own, Without(raw, "defaults")).value.entries;
  }

  /** With an explicit base the result expands to the child's own entries on top of that base,
      if and only if the child is safe. For a child whose defaults load to the same base that
      is its old meaning; any other default it had no longer counts. */
  lemma MinimizeAgainstRebases(child: Cfg, baseName: string, rawBase: Cfg, loaded: string -> Cfg)
    requires child.Dict? && rawBase.Dict? && Loads(loaded) && Expand(rawBase, loaded) == Loaded(loaded(baseName))
    requires "defaults" in rawBase.entries ==> DefaultNames(rawBase.entries["defaults"]).Names?
    ensures var rebased := TryMerge(loaded(baseName), Without(child, "defaults"));
            var safe := Safe(Without(child, "defaults"), Without(rawBase, "defaults"));
            var same := Expand(MinimizeAgainst(child, baseName, rawBase), loaded) == rebased;
            (safe ==> same) && (rebased.Loaded? ==> (same <==> safe))
  {
    var own, raw := Without(child, "defaults"), Without(rawBase, "defaults");
    var out := MinimizeAgainst(child, baseName, rawBase);
    OneParent(baseName, loaded);
    PruneIgnoresDefaults(own, rawBase);
    assert Without(out, "defaults").entries == Prune(own, raw).value.entries;
    var parents := if "defaults" in rawBase.entries
      then MergeParents(DefaultNames(rawBase.entries["defaults"]).names, loaded).cfg else EMPTY_DICT;
    assert Merge(EMPTY_DICT, raw).entries == raw.entries;
    assert "defaults" !in rawBase.entries ==> raw.entries == rawBase.entries;
    assert loaded(baseName) == Merge(parents, raw);
    MinimisationKeepsMeaning(parents, raw, own);
  }
}
