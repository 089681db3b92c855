/** Global top-k over a vocabulary split among ranks (`distributed_vocab_topk`,
    nemo_rl/distributed/model_utils.py). torch.topk is specified as a relation: it does not
    say which of several equal entries are taken. */
module TopK {
  import opened Lists

  predicate Entries(z: seq<real>, vals: seq<real>, idx: seq<int>) {
    |vals| == |idx| && forall i :: 0 <= i < |idx| ==> 0 <= idx[i] < |z| && vals[i] == z[idx[i]]
  }

  predicate Descending(vals: seq<real>) {
    forall i, j :: 0 <= i < j < |vals| ==> vals[i] >= vals[j]
  }

  /** No entry left out is larger than one taken. */
  predicate Dominates(z: seq<real>, vals: seq<real>, idx: seq<int>) {
    forall j :: 0 <= j < |z| && j !in idx ==> Below(z[j], vals)
  }

  predicate Below(x: real, vals: seq<real>) {
    forall i :: 0 <= i < |vals| ==> x <= vals[i]
  }

  /** vals, idx is a result torch.topk(z, k) may give. */
  ghost predicate IsTopK(z: seq<real>, k: nat, vals: seq<real>, idx: seq<int>) {
    |idx| == k && Entries(z, vals, idx) && Distinct(idx) && Descending(vals) && Dominates(z, vals, idx)
  }

  // ---------------------------------------------------------------- positions of a concatenation

  function At<T>(blocks: seq<seq<T>>, r: nat, q: nat): nat
    requires r < |blocks|
  {
    |Flatten(blocks[..r])| + q
  }

  lemma BlockEntry<T>(blocks: seq<seq<T>>, r: nat, q: nat)
    requires r < |blocks| && q < |blocks[r]|
    ensures At(blocks, r, q) < |Flatten(blocks)| && Flatten(blocks)[At(blocks, r, q)] == blocks[r][q]
  {
    BlockAtOffset(blocks, r);
    assert Slice(Flatten(blocks), |Flatten(blocks[..r])|, |Flatten(blocks[..r + 1])|)[q] == blocks[r][q];
  }

  lemma {:induction false} FindBlock<T>(blocks: seq<seq<T>>, p: nat) returns (r: nat, q: nat)
    requires p < |Flatten(blocks)|
    ensures r < |blocks| && q < |blocks[r]| && p == At(blocks, r, q)
  {
    var m := |blocks| - 1;
    if p >= |Flatten(blocks[..m])| {
      r, q := m, p - |Flatten(blocks[..m])|;
    } else {
      r, q := FindBlock(blocks[..m], p);
      assert blocks[..m][..r] == blocks[..r];
    }
  }

  lemma OffsetsAscend<T>(blocks: seq<seq<T>>, r: nat, s: nat)
    requires r < s <= |blocks|
    ensures |Flatten(blocks[..r])| + |blocks[r]| <= |Flatten(blocks[..s])|
  {
    assert blocks[..s][..r + 1] == blocks[..r + 1] && blocks[..r + 1][..r] == blocks[..r];
    FlattenPrefixLength(blocks[..s], r + 1);
  }

  lemma {:induction false} SameShape<S, T>(x: seq<seq<S>>, y: seq<seq<T>>)
    requires |x| == |y| && forall r :: 0 <= r < |x| ==> |x[r]| == |y[r]|
    ensures |Flatten(x)| == |Flatten(y)|
  {
    if x != [] { SameShape(x[..|x| - 1], y[..|y| - 1]); }
  }

  lemma SameOffset<S, T>(x: seq<seq<S>>, y: seq<seq<T>>, r: nat)
    requires |x| == |y| && (forall r :: 0 <= r < |x| ==> |x[r]| == |y[r]|) && r <= |x|
    ensures |Flatten(x[..r])| == |Flatten(y[..r])|
  {
    SameShape(x[..r], y[..r]);
  }

  // ---------------------------------------------------------------- the candidates

  /** Each rank's own top entries, with its indices shifted to the whole vocabulary. */
  ghost predicate Candidates(shards: seq<seq<real>>, k: nat, vals: seq<seq<real>>, idx: seq<seq<int>>) {
    |vals| == |idx| == |shards| && forall r :: 0 <= r < |shards| ==> CandidatesOf(shards, k, vals, idx, r)
  }

  ghost predicate CandidatesOf(shards: seq<seq<real>>, k: nat, vals: seq<seq<real>>, idx: seq<seq<int>>, r: nat)
    requires r < |shards| == |vals| == |idx|
  {
    IsTopK(shards[r], Min(k, |shards[r]|), vals[r], Unshifted(idx[r], At(shards, r, 0)))
  }

  function Unshifted(idx: seq<int>, d: int): (r: seq<int>)
    ensures |r| == |idx| && forall i :: 0 <= i < |r| ==> r[i] == idx[i] - d
  {
    seq(|idx|, i requires 0 <= i < |idx| => idx[i] - d)
  }

  lemma CandidateShape(shards: seq<seq<real>>, k: nat, vals: seq<seq<real>>, idx: seq<seq<int>>)
    requires Candidates(shards, k, vals, idx)
    ensures forall r :: 0 <= r < |vals| ==> |vals[r]| == |idx[r]| == Min(k, |shards[r]|)
    ensures |Flatten(vals)| == |Flatten(idx)|
  {
    forall r | 0 <= r < |vals| ensures |vals[r]| == |idx[r]| == Min(k, |shards[r]|) {
      assert CandidatesOf(shards, k, vals, idx, r);
    }
    SameShape(vals, idx);
  }

  /** Where candidate `q` of rank `r` lies in the merged lists. */
  lemma CandidatePosition(shards: seq<seq<real>>, k: nat, vals: seq<seq<real>>, idx: seq<seq<int>>, r: nat, q: nat)
    requires Candidates(shards, k, vals, idx) && r < |vals| && q < |vals[r]|
    ensures |Flatten(vals)| == |Flatten(idx)|
    ensures q < |idx[r]| && At(idx, r, q) == At(vals, r, q) < |Flatten(idx)|
    ensures Flatten(idx)[At(vals, r, q)] == idx[r][q] && Flatten(vals)[At(vals, r, q)] == vals[r][q]
  {
    CandidateShape(shards, k, vals, idx);
    SameOffset(vals, idx, r);
    BlockEntry(vals, r, q);
    BlockEntry(idx, r, q);
  }

  /** What candidate `q` of rank `r` is. */
  lemma CandidateValue(shards: seq<seq<real>>, k: nat, vals: seq<seq<real>>, idx: seq<seq<int>>, r: nat, q: nat)
    requires Candidates(shards, k, vals, idx) && r < |vals| && q < |vals[r]|
    ensures q < |idx[r]| && At(shards, r, 0) <= idx[r][q] < At(shards, r, 0) + |shards[r]|
    ensures vals[r][q] == shards[r][idx[r][q] - At(shards, r, 0)]
  {
    assert CandidatesOf(shards, k, vals, idx, r);
    assert Unshifted(idx[r], At(shards, r, 0))[q] == idx[r][q] - At(shards, r, 0);
  }

  /** The merged list is made of entries of the full logits. */
  lemma CandidateEntry(shards: seq<seq<real>>, k: nat, vals: seq<seq<real>>, idx: seq<seq<int>>, r: nat, q: nat)
    requires Candidates(shards, k, vals, idx) && r < |vals| && q < |vals[r]|
    ensures |Flatten(vals)| == |Flatten(idx)|
    ensures q < |idx[r]| && At(idx, r, q) == At(vals, r, q) < |Flatten(idx)|
    ensures At(shards, r, 0) <= idx[r][q] < At(shards, r, 0) + |shards[r]| <= |Flatten(shards)|
    ensures Flatten(idx)[At(vals, r, q)] == idx[r][q]
    ensures Flatten(vals)[At(vals, r, q)] == Flatten(shards)[idx[r][q]]
  {
    CandidatePosition(shards, k, vals, idx, r, q);
    CandidateValue(shards, k, vals, idx, r, q);
    BlockEntry(shards, r, idx[r][q] - At(shards, r, 0));
    BlockAtOffset(shards, r);
  }

  lemma MergedEntries(shards: seq<seq<real>>, k: nat, vals: seq<seq<real>>, idx: seq<seq<int>>)
    requires Candidates(shards, k, vals, idx)
    ensures Entries(Flatten(shards), Flatten(vals), Flatten(idx))
  {
    CandidateShape(shards, k, vals, idx);
    forall p | 0 <= p < |Flatten(vals)|
      ensures 0 <= Flatten(idx)[p] < |Flatten(shards)| && Flatten(vals)[p] == Flatten(shards)[Flatten(idx)[p]]
    {
      var r, q := FindBlock(vals, p);
      CandidateEntry(shards, k, vals, idx, r, q);
    }
  }

  lemma DifferentRanks(shards: seq<seq<real>>, k: nat, vals: seq<seq<real>>, idx: seq<seq<int>>, r: nat, q: nat,
                       s: nat, t: nat)
    requires Candidates(shards, k, vals, idx) && r <= s < |vals| && q < |vals[r]| && t < |vals[s]|
    requires r == s ==> q != t
    ensures q < |idx[r]| && t < |idx[s]| && idx[r][q] != idx[s][t]
  {
    CandidateEntry(shards, k, vals, idx, r, q);
    CandidateEntry(shards, k, vals, idx, s, t);
    if r < s {
      OffsetsAscend(shards, r, s);
    } else {
      assert CandidatesOf(shards, k, vals, idx, r);
      var own := Unshifted(idx[r], At(shards, r, 0));
      assert own[q] != own[t];
    }
  }

  lemma MergedDistinct(shards: seq<seq<real>>, k: nat, vals: seq<seq<real>>, idx: seq<seq<int>>)
    requires Candidates(shards, k, vals, idx)
    ensures Distinct(Flatten(idx))
  {
    CandidateShape(shards, k, vals, idx);
    forall p, p' | 0 <= p < p' < |Flatten(idx)| ensures Flatten(idx)[p] != Flatten(idx)[p'] {
      var r, q := FindBlock(vals, p);
      var s, t := FindBlock(vals, p');
      CandidateEntry(shards, k, vals, idx, r, q);
      CandidateEntry(shards, k, vals, idx, s, t);
      if r <= s {
        DifferentRanks(shards, k, vals, idx, r, q, s, t);
      } else {
        DifferentRanks(shards, k, vals, idx, s, t, r, q);
      }
    }
  }

  /** There are enough candidates to choose from. */
  lemma {:induction false} EnoughCandidates(shards: seq<seq<real>>, k: nat, vals: seq<seq<real>>)
    requires |vals| == |shards| && forall r :: 0 <= r < |vals| ==> |vals[r]| == Min(k, |shards[r]|)
    ensures Min(k, |Flatten(shards)|) <= |Flatten(vals)|
  {
    if shards != [] { EnoughCandidates(shards[..|shards| - 1], k, vals[..|vals| - 1]); }
  }

  // ---------------------------------------------------------------- merging

  /** torch.gather(all_idx, sel_pos) */
  function Picked(idx: seq<int>, pos: seq<int>): (r: seq<int>)
    requires forall i :: 0 <= i < |pos| ==> 0 <= pos[i] < |idx|
    ensures |r| == |pos| && forall i :: 0 <= i < |r| ==> r[i] == idx[pos[i]]
  {
    seq(|pos|, i requires 0 <= i < |pos| => idx[pos[i]])
  }

  function IndexSet(lo: nat, n: nat): (s: set<int>)
    ensures |s| == n && forall x :: x in s <==> lo <= x < lo + n
  {
    if n == 0 then {} else IndexSet(lo, n - 1) + {lo + n - 1}
  }

  lemma {:induction false} DistinctCount(pos: seq<int>)
    requires Distinct(pos)
    ensures |set x | x in pos| == |pos|
  {
    if pos != [] {
      var m := |pos| - 1;
      DistinctCount(pos[..m]);
      assert (set x | x in pos) == (set x | x in pos[..m]) + {pos[m]};
    }
  }

  /** A result of k entries that takes every one of a rank's k candidates takes nothing else. */
  lemma OnlyThatRank(pos: seq<int>, lo: nat, n: nat, i: nat)
    requires Distinct(pos) && |pos| <= n && i < |pos|
    requires forall x :: lo <= x < lo + n ==> x in pos
    ensures lo <= pos[i] < lo + n
  {
    DistinctCount(pos);
    var taken := set x | x in pos;
    assert IndexSet(lo, n) <= taken;
    if pos[i] !in IndexSet(lo, n) {
      assert IndexSet(lo, n) + {pos[i]} <= taken;
      SubsetSize(IndexSet(lo, n) + {pos[i]}, taken);
    }
  }

  lemma SubsetSize(a: set<int>, b: set<int>)
    requires a <= b
    ensures |a| <= |b|
  {
    assert b == a + (b - a);
  }

  lemma BelowCandidates(shards: seq<seq<real>>, k: nat, vals: seq<seq<real>>, idx: seq<seq<int>>, r: nat, v: nat)
    requires Candidates(shards, k, vals, idx) && r < |shards| && v < |shards[r]|
    requires At(shards, r, v) !in Flatten(idx)
    ensures |vals[r]| == k && Below(shards[r][v], vals[r])
  {
    CandidateShape(shards, k, vals, idx);
    assert CandidatesOf(shards, k, vals, idx, r);
    var own := Unshifted(idx[r], At(shards, r, 0));
    forall q | 0 <= q < |own| ensures own[q] != v {
      CandidateEntry(shards, k, vals, idx, r, q);
      assert Flatten(idx)[At(vals, r, q)] in Flatten(idx);
    }
    NotAllTaken(own, |shards[r]|, v);
  }

  lemma NotAllTaken(own: seq<int>, n: nat, v: nat)
    requires Distinct(own) && v < n && v !in own && forall i :: 0 <= i < |own| ==> 0 <= own[i] < n
    ensures |own| < n
  {
    DistinctCount(own);
    SubsetSize((set x | x in own) + {v as int}, IndexSet(0, n));
  }

  /** An entry that is not even a candidate of its rank is below everything selected. */
  lemma BelowSelected(shards: seq<seq<real>>, k: nat, vals: seq<seq<real>>, idx: seq<seq<int>>,
                      sel: seq<real>, pos: seq<int>, r: nat, v: nat, i: nat)
    requires Candidates(shards, k, vals, idx) && r < |shards| && v < |shards[r]| && i < |pos| <= k
    requires IsTopK(Flatten(vals), |pos|, sel, pos) && At(shards, r, v) !in Flatten(idx)
    ensures shards[r][v] <= sel[i]
  {
    BelowCandidates(shards, k, vals, idx, r, v);
    var lo := At(vals, r, 0);
    if forall x :: lo <= x < lo + k ==> x in pos {
      OnlyThatRank(pos, lo, k, i);
      BlockEntry(vals, r, pos[i] - lo);
    } else {
      var x :| lo <= x < lo + k && x !in pos;
      BlockEntry(vals, r, x - lo);
      assert Below(Flatten(vals)[x], sel);
    }
  }

  /** The top-k of the ranks' own top-min(k, V_local) entries is a top-k of the whole
      vocabulary, however ties are broken. */
  lemma MergedTopK(shards: seq<seq<real>>, k: nat, vals: seq<seq<real>>, idx: seq<seq<int>>, sel: seq<real>,
                   pos: seq<int>)
    requires Candidates(shards, k, vals, idx)
    requires IsTopK(Flatten(vals), Min(k, |Flatten(shards)|), sel, pos)
    ensures |Flatten(idx)| == |Flatten(vals)|
    ensures IsTopK(Flatten(shards), Min(k, |Flatten(shards)|), sel, Picked(Flatten(idx), pos))
  {
    var z := Flatten(shards);
    CandidateShape(shards, k, vals, idx);
    MergedEntries(shards, k, vals, idx);
    MergedDistinct(shards, k, vals, idx);
    var picked := Picked(Flatten(idx), pos);
    forall j | 0 <= j < |z| && j !in picked ensures Below(z[j], sel) {
      forall i | 0 <= i < |sel| ensures z[j] <= sel[i] {
        NotPicked(shards, k, vals, idx, sel, pos, j, i);
      }
    }
  }

  lemma NotPicked(shards: seq<seq<real>>, k: nat, vals: seq<seq<real>>, idx: seq<seq<int>>, sel: seq<real>,
                  pos: seq<int>, j: nat, i: nat)
    requires Candidates(shards, k, vals, idx) && |Flatten(idx)| == |Flatten(vals)|
    requires Entries(Flatten(shards), Flatten(vals), Flatten(idx))
    requires |pos| <= k && IsTopK(Flatten(vals), |pos|, sel, pos) && i < |sel|
    requires j < |Flatten(shards)| && j !in Picked(Flatten(idx), pos)
    ensures Flatten(shards)[j] <= sel[i]
  {
    if j in Flatten(idx) {
      var p :| 0 <= p < |Flatten(idx)| && Flatten(idx)[p] == j;
      forall m | 0 <= m < |pos| ensures pos[m] != p {
        assert Picked(Flatten(idx), pos)[m] == Flatten(idx)[pos[m]];
      }
      assert Below(Flatten(vals)[p], sel);
    } else {
      var r, v := FindBlock(shards, j);
      BlockEntry(shards, r, v);
      BelowSelected(shards, k, vals, idx, sel, pos, r, v, i);
    }
  }

  // ---------------------------------------------------------------- the algorithm

  /** Position of a largest entry that is not in `taken`. */
  method LargestLeft(z: seq<real>, taken: seq<int>) returns (best: nat)
    requires exists j :: 0 <= j < |z| && j !in taken
    ensures best < |z| && best !in taken
    ensures forall j :: 0 <= j < |z| && j !in taken ==> z[j] <= z[best]
  {
    var found := false;
    best := 0;
    for j := 0 to |z|
      invariant found ==> best < j && best !in taken && forall i :: 0 <= i < j && i !in taken ==> z[i] <= z[best]
      invariant !found ==> forall i :: 0 <= i < j ==> i in taken
    {
      if j !in taken && (!found || z[j] > z[best]) {
        found, best := true, j;
      }
    }
  }

  lemma SomeLeft(z: seq<real>, idx: seq<int>)
    requires Distinct(idx) && |idx| < |z| && forall i :: 0 <= i < |idx| ==> 0 <= idx[i] < |z|
    ensures exists j :: 0 <= j < |z| && j !in idx
  {
    if forall j :: 0 <= j < |z| ==> j in idx {
      DistinctCount(idx);
      SubsetSize(IndexSet(0, |z|), set x | x in idx);
    }
  }

  /** torch.topk */
  method SelectTopK(z: seq<real>, k: nat) returns (vals: seq<real>, idx: seq<int>)
    requires k <= |z|
    ensures IsTopK(z, k, vals, idx)
  {
    vals, idx := [], [];
    while |idx| < k
      invariant IsTopK(z, |idx|, vals, idx) && |idx| <= k
      decreases k - |idx|
    {
      SomeLeft(z, idx);
      var best := LargestLeft(z, idx);
      assert Below(z[best], vals);
      vals, idx := vals + [z[best]], idx + [best];
    }
  }

  method LocalTopK(shards: seq<seq<real>>, k: nat, width: nat) returns (vals: seq<seq<real>>, idx: seq<seq<int>>)
    requires AllOfLength(shards, width)
    ensures Candidates(shards, k, vals, idx)
  {
    vals, idx := [], [];
    for r := 0 to |shards|
      invariant |vals| == |idx| == r
      invariant forall s :: 0 <= s < r ==>
        IsTopK(shards[s], Min(k, |shards[s]|), vals[s], Unshifted(idx[s], At(shards, s, 0)))
    {
      var start: nat := r * width;
      RankStart(shards, width, r);
      var v, i := SelectTopK(shards[r], Min(k, width));
      var global := Unshifted(i, 0 - (start as int));
      assert Unshifted(global, start) == i;
      vals, idx := vals + [v], idx + [global];
    }
    forall r | 0 <= r < |shards| ensures CandidatesOf(shards, k, vals, idx, r) {}
  }

  lemma RankStart(shards: seq<seq<real>>, width: nat, r: nat)
    requires AllOfLength(shards, width) && r < |shards|
    ensures At(shards, r, 0) == r * width
  {
    FlattenLength(shards[..r], width);
  }

  /** One position: local top-k on every rank, all_gather, top-k of what was gathered. */
  method DistributedTopK(shards: seq<seq<real>>, k: nat, width: nat) returns (vals: seq<real>, idx: seq<int>)
    requires AllOfLength(shards, width) && 0 < width && shards != []
    ensures IsTopK(Flatten(shards), Min(k, |Flatten(shards)|), vals, idx)
  {
    var localVals, localIdx := LocalTopK(shards, k, width);
    FlattenLength(shards, width);
    BlockBounds(0, |shards|, width);
    var kEff := Min(k, Max(1, width * |shards|));
    CandidateShape(shards, k, localVals, localIdx);
    EnoughCandidates(shards, k, localVals);
    var pos;
    vals, pos := SelectTopK(Flatten(localVals), kEff);
    MergedTopK(shards, k, localVals, localIdx, vals, pos);
    idx := Picked(Flatten(localIdx), pos);
  }

  ghost predicate TopKAt(shards: seq<seq<real>>, k: nat, vals: seq<real>, idx: seq<int>) {
    IsTopK(Flatten(shards), Min(k, |Flatten(shards)|), vals, idx)
  }

  /** What to expect at a range of positions. */
  ghost predicate AllTopK(logits: seq<seq<seq<real>>>, k: nat, vals: seq<seq<real>>, idx: seq<seq<int>>) {
    |vals| == |idx| == |logits| && forall s :: 0 <= s < |logits| ==> TopKAt(logits[s], k, vals[s], idx[s])
  }

  lemma TopKAppend(x: seq<seq<seq<real>>>, y: seq<seq<seq<real>>>, k: nat, vals: seq<seq<real>>, idx: seq<seq<int>>,
                   v: seq<seq<real>>, i: seq<seq<int>>)
    requires AllTopK(x, k, vals, idx) && AllTopK(y, k, v, i)
    ensures AllTopK(x + y, k, vals + v, idx + i)
  {
    var all, allVals, allIdx := x + y, vals + v, idx + i;
    forall s | 0 <= s < |all| ensures TopKAt(all[s], k, allVals[s], allIdx[s]) {
      assert s < |x| ==> all[s] == x[s] && allVals[s] == vals[s] && allIdx[s] == idx[s];
      assert s >= |x| ==> all[s] == y[s - |x|] && allVals[s] == v[s - |x|] && allIdx[s] == i[s - |x|];
    }
  }

  method TopKOfChunk(logits: seq<seq<seq<real>>>, k: nat, width: nat) returns (vals: seq<seq<real>>, idx: seq<seq<int>>)
    requires 0 < width && forall s :: 0 <= s < |logits| ==> AllOfLength(logits[s], width) && logits[s] != []
    ensures AllTopK(logits, k, vals, idx)
  {
    vals, idx := [], [];
    for s := 0 to |logits|
      invariant AllTopK(logits[..s], k, vals, idx)
    {
      var v, i := DistributedTopK(logits[s], k, width);
      assert TopKAt(logits[s], k, v, i);
      TopKAppend(logits[..s], [logits[s]], k, vals, idx, [v], [i]);
      assert logits[..s + 1] == logits[..s] + [logits[s]];
      vals, idx := vals + [v], idx + [i];
    }
    assert logits[..|logits|] == logits;
  }

  /** Chunked along the sequence; `chunk` is the sequence length when none is given. An
      empty sequence has no chunk to return (IndexError). */
  method TopKOverVocabulary(logits: seq<seq<seq<real>>>, k: nat, width: nat, chunk: nat)
    returns (ok: bool, vals: seq<seq<real>>, idx: seq<seq<int>>)
    requires 0 < width && 0 < chunk
    requires forall s :: 0 <= s < |logits| ==> AllOfLength(logits[s], width) && logits[s] != []
    ensures ok == (logits != [])
    ensures ok ==> AllTopK(logits, k, vals, idx)
  {
    var s0 := 0;
    vals, idx := [], [];
    while s0 < |logits|
      invariant s0 <= |logits| && AllTopK(logits[..s0], k, vals, idx)
    {
      var s1 := Min(|logits|, s0 + chunk);
      var v, i := TopKOfChunk(logits[s0..s1], k, width);
      TopKAppend(logits[..s0], logits[s0..s1], k, vals, idx, v, i);
      assert logits[..s1] == logits[..s0] + logits[s0..s1];
      vals, idx, s0 := vals + v, idx + i, s1;
    }
    ok := s0 > 0;
    assert logits[..|logits|] == logits;
  }
}
