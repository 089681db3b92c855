/** Sequence packing as a whole: packing each chunk, sharding the bins, and what the trainer
    gets back (`shard_by_batch_size`, `get_batch`, `reorder_data`,
    nemo_rl/distributed/batched_data_dict.py). */
module PackedBatches {
  import opened Lists
  import opened Sorting
  import opened Rows
  import opened Sharding
  import opened Packing
  import opened PackedShards
  import ModifiedFirstFit

  /** What the packer sees of chunk `c`. */
  function ChunkPadded(rows: seq<Row>, bs: nat, c: nat, pad: int): seq<nat>
    requires 0 < pad
  {
    PaddedLengths(Slice(rows, ChunkStart(c, bs), ChunkStart(c, bs) + bs), pad)
  }

  /** What the packer promises for chunk `c`. */
  ghost predicate ChunkPacked(rows: seq<Row>, bs: nat, c: nat, pad: int, cap: nat, shards: nat, bins: seq<seq<int>>)
    requires 0 < pad && 0 < shards
  {
    IsPacking(ChunkPadded(rows, bs, c, pad), cap, bins) && shards <= |bins| && |bins| % shards == 0
  }

  ghost predicate AllPacked(rows: seq<Row>, bs: nat, pad: int, cap: nat, shards: nat, allBins: seq<seq<seq<int>>>)
    requires 0 < pad && 0 < shards
  {
    ChunkStart(|allBins|, bs) == |rows| && EachPacked(rows, bs, pad, cap, shards, allBins)
  }

  ghost predicate EachPacked(rows: seq<Row>, bs: nat, pad: int, cap: nat, shards: nat, allBins: seq<seq<seq<int>>>)
    requires 0 < pad && 0 < shards
  {
    allBins == [] ||
    (EachPacked(rows, bs, pad, cap, shards, allBins[..|allBins| - 1]) &&
     ChunkPacked(rows, bs, |allBins| - 1, pad, cap, shards, allBins[|allBins| - 1]))
  }

  lemma {:induction false} PackedNth(rows: seq<Row>, bs: nat, pad: int, cap: nat, shards: nat,
                                     allBins: seq<seq<seq<int>>>, c: nat)
    requires 0 < pad && 0 < shards && EachPacked(rows, bs, pad, cap, shards, allBins) && c < |allBins|
    ensures ChunkPacked(rows, bs, c, pad, cap, shards, allBins[c])
  {
    if c < |allBins| - 1 { PackedNth(rows, bs, pad, cap, shards, allBins[..|allBins| - 1], c); }
  }

  /** The same facts with the chunk's first row `d` named. */
  ghost predicate PackedAt(rows: seq<Row>, pad: int, cap: nat, bins: seq<seq<int>>, d: nat, bs: nat)
    requires 0 < pad
  {
    d + bs <= |rows| && IsPacking(PaddedLengths(Slice(rows, d, d + bs), pad), cap, bins)
  }

  lemma PackedChunk(rows: seq<Row>, bs: nat, pad: int, cap: nat, shards: nat, allBins: seq<seq<seq<int>>>, c: nat)
    requires 0 < pad && 0 < shards && AllPacked(rows, bs, pad, cap, shards, allBins) && c < |allBins|
    ensures PackedAt(rows, pad, cap, allBins[c], ChunkStart(c, bs), bs)
    ensures shards <= |allBins[c]| && |allBins[c]| % shards == 0
  {
    ChunkEnds(c, |allBins|, bs);
    PackedNth(rows, bs, pad, cap, shards, allBins, c);
  }

  lemma ShiftedInRange(rows: seq<Row>, pad: int, cap: nat, bins: seq<seq<int>>, d: nat, bs: nat)
    requires 0 < pad && PackedAt(rows, pad, cap, bins, d, bs)
    ensures AllInRange(ShiftAll(bins, d), |rows|)
  {
    var lens := PaddedLengths(Slice(rows, d, d + bs), pad);
    forall b | b in ShiftAll(bins, d) ensures InRange(b, |rows|) {
      var i :| 0 <= i < |bins| && b == Shift(bins[i], d);
      assert BinOk(lens, cap, bins[i]);
    }
  }

  lemma ChunkInRange(rows: seq<Row>, bs: nat, pad: int, cap: nat, shards: nat, allBins: seq<seq<seq<int>>>, c: nat)
    requires 0 < pad && 0 < shards && AllPacked(rows, bs, pad, cap, shards, allBins) && c < |allBins|
    ensures AllInRange(GlobalBins(allBins, bs, c), |rows|) && shards <= |allBins[c]|
  {
    PackedChunk(rows, bs, pad, cap, shards, allBins, c);
    ShiftedInRange(rows, pad, cap, allBins[c], ChunkStart(c, bs), bs);
  }

  lemma PackedInRange(rows: seq<Row>, bs: nat, pad: int, cap: nat, shards: nat, allBins: seq<seq<seq<int>>>)
    requires 0 < pad && 0 < shards && AllPacked(rows, bs, pad, cap, shards, allBins)
    ensures BinsInRange(allBins, bs, |rows|) && EnoughBins(allBins, shards)
  {
    forall c | 0 <= c < |allBins|
      ensures AllInRange(GlobalBins(allBins, bs, c), |rows|)
      ensures shards <= |allBins[c]|
    {
      ChunkInRange(rows, bs, pad, cap, shards, allBins, c);
    }
  }

  // ---------------------------------------------------------------- the indices are a permutation

  lemma {:induction false} FlattenPairwise<T>(x: seq<seq<T>>, y: seq<seq<T>>, z: seq<seq<T>>)
    requires |x| == |y| == |z| && forall i :: 0 <= i < |z| ==> z[i] == x[i] + y[i]
    ensures multiset(Flatten(z)) == multiset(Flatten(x)) + multiset(Flatten(y))
  {
    if z != [] {
      var m := |z| - 1;
      FlattenPairwise(x[..m], y[..m], z[..m]);
      AppendBoth(Flatten(x[..m]), Flatten(y[..m]), Flatten(z[..m]), x[m], y[m]);
    }
  }

  lemma AppendBoth<T>(a: seq<T>, b: seq<T>, ab: seq<T>, c: seq<T>, d: seq<T>)
    requires multiset(ab) == multiset(a) + multiset(b)
    ensures multiset(ab + (c + d)) == multiset(a + c) + multiset(b + d)
  {}

  lemma {:induction false} FlattenEach<T>(lists: seq<seq<seq<T>>>, flat: seq<seq<T>>)
    requires |flat| == |lists| && forall i :: 0 <= i < |flat| ==> flat[i] == Flatten(lists[i])
    ensures Flatten(flat) == Flatten(Flatten(lists))
  {
    if flat != [] {
      var m := |flat| - 1;
      FlattenEach(lists[..m], flat[..m]);
      FlattenAppend(Flatten(lists[..m]), lists[m]);
    }
  }

  lemma {:induction false} FlattenShifted(bins: seq<seq<int>>, d: int)
    ensures Flatten(ShiftAll(bins, d)) == Shift(Flatten(bins), d)
  {
    if bins != [] {
      var m := |bins| - 1;
      FlattenShifted(bins[..m], d);
      assert ShiftAll(bins, d)[..m] == ShiftAll(bins[..m], d);
    }
  }

  lemma ShiftedPermutation(p: seq<int>, n: nat, d: int)
    requires IsPermutation(p, n)
    ensures multiset(Shift(p, d)) == multiset(Iota(d, n))
  {
    PermutationRange(p, n);
    SelectMultiset(Iota(d, n), p, Iota(0, n));
    assert Select(Iota(d, n), p) == Shift(p, d);
    assert Select(Iota(d, n), Iota(0, n)) == Iota(d, n);
  }

  /** Dealing the bins of a chunk to the shards loses none of its rows. */
  lemma DealtRows(bins: seq<seq<int>>, shards: nat, dealt: seq<seq<int>>)
    requires 0 < shards && |dealt| == shards
    requires forall s :: 0 <= s < shards ==> dealt[s] == Flatten(Stride(bins, s, shards))
    ensures multiset(Flatten(dealt)) == multiset(Flatten(bins))
  {
    FlattenEach(Strides(bins, shards, shards), dealt);
    StridesKeepAll(bins, shards);
    FlattenMultiset(Flatten(Strides(bins, shards, shards)), bins);
  }

  // What each shard has from each chunk: m[s][c].

  predicate Matrix<T>(m: seq<seq<seq<T>>>, chunks: nat) { forall s :: 0 <= s < |m| ==> |m[s]| == chunks }

  function Column<T>(m: seq<seq<seq<T>>>, chunks: nat, c: nat): (r: seq<seq<T>>)
    requires Matrix(m, chunks) && c < chunks
    ensures |r| == |m| && forall s :: 0 <= s < |r| ==> r[s] == m[s][c]
  {
    seq(|m|, s requires 0 <= s < |m| => m[s][c])
  }

  function FlatRows<T>(m: seq<seq<seq<T>>>): (r: seq<seq<T>>)
    ensures |r| == |m| && forall s :: 0 <= s < |r| ==> r[s] == Flatten(m[s])
  {
    seq(|m|, s requires 0 <= s < |m| => Flatten(m[s]))
  }

  function Trimmed<T>(m: seq<seq<seq<T>>>, chunks: nat): (r: seq<seq<seq<T>>>)
    requires Matrix(m, chunks + 1)
    ensures |r| == |m| && Matrix(r, chunks) && forall s :: 0 <= s < |r| ==> r[s] == m[s][..chunks]
  {
    seq(|m|, s requires 0 <= s < |m| => m[s][..chunks])
  }

  /** Going through a matrix row by row or column by column meets the same entries. */
  lemma {:induction false} Transposed<T>(m: seq<seq<seq<T>>>, chunks: nat, columns: seq<seq<T>>)
    requires Matrix(m, chunks) && |columns| == chunks
    requires forall c :: 0 <= c < chunks ==> multiset(Flatten(Column(m, chunks, c))) == multiset(columns[c])
    ensures multiset(Flatten(FlatRows(m))) == multiset(Flatten(columns))
    decreases chunks
  {
    if chunks == 0 {
      EmptyRows(FlatRows(m));
    } else {
      var k := chunks - 1;
      var shorter := Trimmed(m, k);
      forall c | 0 <= c < k ensures multiset(Flatten(Column(shorter, k, c))) == multiset(columns[c]) {
        assert Column(shorter, k, c) == Column(m, chunks, c);
      }
      Transposed(shorter, k, columns[..k]);
      FlattenPairwise(FlatRows(shorter), Column(m, chunks, k), FlatRows(m));
    }
  }

  lemma {:induction false} EmptyRows<T>(rows: seq<seq<T>>)
    requires forall s :: 0 <= s < |rows| ==> rows[s] == []
    ensures Flatten(rows) == []
  {
    if rows != [] { EmptyRows(rows[..|rows| - 1]); }
  }

  /** The indices of each chunk, as the whole batch numbers them. */
  function ChunkIotas(bs: nat, chunks: nat): (r: seq<seq<int>>)
    ensures |r| == chunks
  {
    if chunks == 0 then [] else ChunkIotas(bs, chunks - 1) + [Iota(ChunkStart(chunks - 1, bs), bs)]
  }

  lemma {:induction false} ChunkIotasAt(bs: nat, chunks: nat, c: nat)
    requires c < chunks
    ensures ChunkIotas(bs, chunks)[c] == Iota(ChunkStart(c, bs), bs)
  {
    if c < chunks - 1 { ChunkIotasAt(bs, chunks - 1, c); }
  }

  /** Chunk after chunk the indices of the batch. */
  lemma {:induction false} ChunksCover(bs: nat, chunks: nat)
    ensures Flatten(ChunkIotas(bs, chunks)) == Iota(0, ChunkStart(chunks, bs))
  {
    if chunks > 0 {
      ChunksCover(bs, chunks - 1);
      FlattenSnoc(ChunkIotas(bs, chunks - 1), Iota(ChunkStart(chunks - 1, bs), bs));
      IotaGrows(ChunkStart(chunks - 1, bs), bs);
    }
  }

  lemma IotaGrows(n: nat, bs: nat)
    ensures Iota(0, n) + Iota(n, bs) == Iota(0, n + bs)
  {}

  function AllBlocks(allBins: seq<seq<seq<int>>>, bs: nat, shards: nat): (m: seq<seq<seq<int>>>)
    requires 0 < shards
    ensures |m| == shards && Matrix(m, |allBins|)
    ensures forall s :: 0 <= s < shards ==> m[s] == IndexBlocks(allBins, bs, shards, s, |allBins|)
  {
    seq(shards, s requires 0 <= s < shards => IndexBlocks(allBins, bs, shards, s, |allBins|))
  }

  /** Together the shards have the rows of chunk `c`. */
  lemma ColumnCovers(rows: seq<Row>, bs: nat, pad: int, cap: nat, shards: nat, allBins: seq<seq<seq<int>>>, c: nat)
    requires 0 < pad && 0 < shards && AllPacked(rows, bs, pad, cap, shards, allBins) && c < |allBins|
    ensures multiset(Flatten(Column(AllBlocks(allBins, bs, shards), |allBins|, c)))
         == multiset(Iota(ChunkStart(c, bs), bs))
  {
    var column := Column(AllBlocks(allBins, bs, shards), |allBins|, c);
    forall s | 0 <= s < shards ensures column[s] == Flatten(Stride(GlobalBins(allBins, bs, c), s, shards)) {
      assert column[s] == IndexBlocks(allBins, bs, shards, s, |allBins|)[c];
    }
    DealtRows(GlobalBins(allBins, bs, c), shards, column);
    ChunkPermutes(rows, bs, pad, cap, shards, allBins, c);
  }

  lemma ChunkPermutes(rows: seq<Row>, bs: nat, pad: int, cap: nat, shards: nat, allBins: seq<seq<seq<int>>>, c: nat)
    requires 0 < pad && 0 < shards && AllPacked(rows, bs, pad, cap, shards, allBins) && c < |allBins|
    ensures multiset(Flatten(GlobalBins(allBins, bs, c))) == multiset(Iota(ChunkStart(c, bs), bs))
  {
    PackedChunk(rows, bs, pad, cap, shards, allBins, c);
    ShiftedPermutes(rows, pad, cap, allBins[c], ChunkStart(c, bs), bs);
  }

  lemma ShiftedPermutes(rows: seq<Row>, pad: int, cap: nat, bins: seq<seq<int>>, d: nat, bs: nat)
    requires 0 < pad && PackedAt(rows, pad, cap, bins, d, bs)
    ensures multiset(Flatten(ShiftAll(bins, d))) == multiset(Iota(d, bs))
  {
    assert |Slice(rows, d, d + bs)| == bs;
    FlattenShifted(bins, d);
    ShiftedPermutation(Flatten(bins), bs, d);
  }

  lemma BlocksPermute(rows: seq<Row>, bs: nat, pad: int, cap: nat, shards: nat, allBins: seq<seq<seq<int>>>)
    requires 0 < pad && 0 < shards && AllPacked(rows, bs, pad, cap, shards, allBins)
    ensures IsPermutation(Flatten(FlatRows(AllBlocks(allBins, bs, shards))), |rows|)
  {
    var columns := ChunkIotas(bs, |allBins|);
    var m := AllBlocks(allBins, bs, shards);
    forall c | 0 <= c < |allBins| ensures multiset(Flatten(Column(m, |allBins|, c))) == multiset(columns[c]) {
      ColumnCovers(rows, bs, pad, cap, shards, allBins, c);
      ChunkIotasAt(bs, |allBins|, c);
    }
    Transposed(m, |allBins|, columns);
    ChunksCover(bs, |allBins|);
  }

  /** The indices returned with the shards are a permutation, for any number of chunks. */
  lemma OrderIsPermutation(rows: seq<Row>, bs: nat, pad: int, cap: nat, shards: nat, allBins: seq<seq<seq<int>>>,
                           result: seq<PackedShard>)
    requires 0 < pad && 0 < shards && AllPacked(rows, bs, pad, cap, shards, allBins)
    requires AllUpTo(rows, allBins, bs, shards, pad, |allBins|, result)
    ensures IsPermutation(Flatten(Orders(result)), |rows|)
  {
    BlocksPermute(rows, bs, pad, cap, shards, allBins);
    assert Orders(result) == FlatRows(AllBlocks(allBins, bs, shards));
  }

  // ---------------------------------------------------------------- round trip

  function ShardRows(shards: seq<PackedShard>): (r: seq<seq<Row>>)
    ensures |r| == |shards| && forall s :: 0 <= s < |r| ==> r[s] == shards[s].rows
  {
    seq(|shards|, s requires 0 <= s < |shards| => shards[s].rows)
  }

  lemma {:induction false} SelectFlatten(rows: seq<Row>, orders: seq<seq<int>>, parts: seq<seq<Row>>)
    requires |parts| == |orders| && forall s :: 0 <= s < |orders| ==>
               InRange(orders[s], |rows|) && parts[s] == Select(rows, orders[s])
    ensures InRange(Flatten(orders), |rows|) && Flatten(parts) == Select(rows, Flatten(orders))
  {
    if orders != [] {
      var m := |orders| - 1;
      SelectFlatten(rows, orders[..m], parts[..m]);
      SelectAppend(rows, Flatten(orders[..m]), orders[m]);
    }
  }

  /** Concatenating the shards and calling `reorder_data` with the returned indices gives the
      batch back, for any number of chunks. */
  lemma PackedRoundTrip(rows: seq<Row>, bs: nat, pad: int, cap: nat, shards: nat, allBins: seq<seq<seq<int>>>,
                        result: seq<PackedShard>)
    requires 0 < pad && 0 < shards && AllPacked(rows, bs, pad, cap, shards, allBins)
    requires AllUpTo(rows, allBins, bs, shards, pad, |allBins|, result)
    ensures Reordered(Flatten(ShardRows(result)), Flatten(Orders(result))) == rows
  {
    OrderIsPermutation(rows, bs, pad, cap, shards, allBins, result);
    SelectFlatten(rows, Orders(result), ShardRows(result));
    ReorderUndoesSelect(rows, Flatten(Orders(result)));
  }

  // ---------------------------------------------------------------- balance and capacity

  lemma EvenStride<T>(s: seq<T>, i: nat, k: nat, q: nat)
    requires i < k && |s| == q * k
    ensures |Stride(s, i, k)| == q
  {
    if q > 0 { assert q * k == (q - 1) * k + k; }
    StrideLength(s, i, k, q);
  }

  /** Every shard runs the same number of microbatches on a chunk, none over capacity. */
  lemma ShardsInStep(rows: seq<Row>, bs: nat, pad: int, cap: nat, shards: nat, allBins: seq<seq<seq<int>>>,
                     result: seq<PackedShard>, s: nat, c: nat)
    requires 0 < pad && 0 < shards && AllPacked(rows, bs, pad, cap, shards, allBins)
    requires AllUpTo(rows, allBins, bs, shards, pad, |allBins|, result)
    requires s < shards && c < |allBins|
    ensures |result[s].lengths| == |result[s].intervals| == |allBins|
    ensures |result[s].lengths[c]| == |result[s].intervals[c]| == |allBins[c]| / shards > 0
    ensures forall j :: 0 <= j < |result[s].lengths[c]| ==> result[s].lengths[c][j] <= cap
  {
    PackedChunk(rows, bs, pad, cap, shards, allBins, c);
    Quotient(|allBins[c]|, shards);
    EvenStride(GlobalBins(allBins, bs, c), s, shards, |allBins[c]| / shards);
    assert ShardUpTo(rows, allBins, bs, shards, pad, s, |allBins|, result[s]);
    forall j | 0 <= j < |result[s].lengths[c]| ensures result[s].lengths[c][j] <= cap {
      LengthWithinCap(rows, bs, pad, cap, shards, allBins, s, c, j);
    }
  }

  lemma Quotient(n: nat, k: nat)
    requires 0 < k <= n && n % k == 0
    ensures 0 < n / k && n == n / k * k
  {
    assert n == k * (n / k) + n % k;
  }

  lemma LengthWithinCap(rows: seq<Row>, bs: nat, pad: int, cap: nat, shards: nat, allBins: seq<seq<seq<int>>>,
                        s: nat, c: nat, j: nat)
    requires 0 < pad && 0 < shards && AllPacked(rows, bs, pad, cap, shards, allBins)
    requires s < shards && c < |allBins| && AllInRange(ShardBins(allBins, bs, shards, s, c), |rows|)
    requires j < |ShardBins(allBins, bs, shards, s, c)|
    ensures TokenCounts(rows, ShardBins(allBins, bs, shards, s, c), pad)[j] <= cap
  {
    var bins := GlobalBins(allBins, bs, c);
    var b := StrideMember(bins, s, shards, j);
    TokenCountsAt(rows, Stride(bins, s, shards), pad, j);
    LoadWithinCap(rows, bs, pad, cap, shards, allBins, c, b);
  }

  lemma {:induction false} StrideMember<T>(bins: seq<T>, i: nat, k: nat, j: nat) returns (b: nat)
    requires 0 < k && j < |Stride(bins, i, k)|
    ensures b < |bins| && Stride(bins, i, k)[j] == bins[b]
    decreases j
  {
    if j == 0 { b := i; } else { b := StrideMember(bins, i + k, k, j - 1); }
  }

  lemma {:induction false} LoadShifted(lens: seq<nat>, part: seq<nat>, bin: seq<int>, d: nat)
    requires d + |part| <= |lens| && InRange(bin, |part|)
    requires forall i :: 0 <= i < |part| ==> part[i] == lens[i + d]
    ensures InRange(Shift(bin, d), |lens|) && BinLoad(lens, Shift(bin, d)) == BinLoad(part, bin)
  {
    if bin != [] {
      var m := |bin| - 1;
      LoadShifted(lens, part, bin[..m], d);
      assert Shift(bin, d)[..m] == Shift(bin[..m], d);
    }
  }

  lemma ShiftedLoad(rows: seq<Row>, pad: int, cap: nat, bins: seq<seq<int>>, d: nat, bs: nat, b: nat)
    requires 0 < pad && PackedAt(rows, pad, cap, bins, d, bs) && b < |bins|
    ensures InRange(Shift(bins[b], d), |rows|)
    ensures BinLoad(PaddedLengths(rows, pad), Shift(bins[b], d)) <= cap
  {
    var part := PaddedLengths(Slice(rows, d, d + bs), pad);
    assert BinOk(part, cap, bins[b]);
    LoadShifted(PaddedLengths(rows, pad), part, bins[b], d);
  }

  lemma LoadWithinCap(rows: seq<Row>, bs: nat, pad: int, cap: nat, shards: nat, allBins: seq<seq<seq<int>>>,
                      c: nat, b: nat)
    requires 0 < pad && 0 < shards && AllPacked(rows, bs, pad, cap, shards, allBins)
    requires c < |allBins| && b < |allBins[c]|
    ensures InRange(GlobalBins(allBins, bs, c)[b], |rows|)
    ensures BinLoad(PaddedLengths(rows, pad), GlobalBins(allBins, bs, c)[b]) <= cap
  {
    PackedChunk(rows, bs, pad, cap, shards, allBins, c);
    ShiftedLoad(rows, pad, cap, allBins[c], ChunkStart(c, bs), bs, b);
  }

  // ---------------------------------------------------------------- the whole operation

  datatype Algorithm =
    | ConcatenativePacker(limit: int)
    | FirstFitDecreasing
    | ModifiedFirstFitDecreasing
    | FirstFitShuffle(shuffle: seq<int>)       // the order `random.shuffle` happens to give

  /** Longest first, ties by descending index. */
  function Descending(lens: seq<nat>): (r: seq<int>)
    ensures |r| == |lens|
  {
    Reversed(SortedRange(lens))
  }

  lemma DescendingIsPermutation(lens: seq<nat>)
    ensures IsPermutation(Descending(lens), |lens|)
  {
    SortedRangeIsStableSort(lens);
    ReversedMultiset(SortedRange(lens));
  }

  /** First-fit-decreasing takes the longest sequences first. */
  lemma DescendingOrder(lens: seq<nat>, i: nat, j: nat)
    requires i < j < |lens|
    ensures InRange(Descending(lens), |lens|)
    ensures var x, y := Descending(lens)[i], Descending(lens)[j];
            lens[x] > lens[y] || (lens[x] == lens[y] && x > y)
  {
    ReversedDescends(lens, i, j);
  }

  predicate ShuffleOf(algorithm: Algorithm, n: nat) {
    algorithm.FirstFitShuffle? ==> multiset(algorithm.shuffle) == multiset(Iota(0, n))
  }

  /** The modified packer takes no length and no capacity of zero. */
  ghost predicate Rejects(lens: seq<nat>, cap: nat, algorithm: Algorithm) {
    algorithm.ModifiedFirstFitDecreasing? && !ModifiedFirstFit.AllPositive(lens, cap)
  }

  ghost predicate Packable(lens: seq<nat>, cap: nat, algorithm: Algorithm) {
    !Rejects(lens, cap, algorithm) && !SomeTooLong(lens, cap)
  }

  /** The error for lengths that cannot be packed. */
  ghost predicate Refused(lens: seq<nat>, cap: nat, algorithm: Algorithm, why: Packed) {
    !Packable(lens, cap, algorithm) && why == if Rejects(lens, cap, algorithm) then NotPositive else TooLong
  }

  ghost predicate PackedFor(lens: seq<nat>, cap: nat, shards: nat, bins: seq<seq<int>>)
    requires 0 < shards
  {
    IsPacking(lens, cap, bins) && shards <= |bins| && |bins| % shards == 0
  }

  /** What each algorithm yields before the bin count is adjusted. */
  ghost predicate ByAlgorithm(lens: seq<nat>, cap: nat, algorithm: Algorithm, packed: seq<seq<int>>) {
    match algorithm
    case ConcatenativePacker(limit) =>
      Flatten(packed) == Iota(0, |lens|) && ClosedInTurn(lens, cap, limit, packed)
    case FirstFitDecreasing => IsFirstFit(lens, cap, Descending(lens), packed)
    case FirstFitShuffle(shuffle) => IsFirstFit(lens, cap, shuffle, packed)
    case ModifiedFirstFitDecreasing => BinsOk(lens, cap, packed) && Crowded(lens, cap, packed)
  }

  /** The algorithm's bins, with sequences taken out one by one until the count is right. */
  ghost predicate AdjustedFrom(packed: seq<seq<int>>, shards: nat, bins: seq<seq<int>>)
    requires 0 < shards
  {
    |bins| == TargetCount(|packed|, shards, shards) && TakenFrom(packed, bins)
  }

  /** `bin_packer.pack`: pack, then adjust the bin count to a positive multiple of `shards`.
      The adjustment fails only where the sequences are not a positive multiple of the shards. */
  method PackChunk(lens: seq<nat>, cap: nat, algorithm: Algorithm, shards: nat)
    returns (result: Packed, ghost packed: seq<seq<int>>)
    requires 0 < shards && ShuffleOf(algorithm, |lens|)
    ensures result.NotPositive? || result.TooLong? <==> !Packable(lens, cap, algorithm)
    ensures !Packable(lens, cap, algorithm) ==> Refused(lens, cap, algorithm, result)
    ensures result.Bins? ==> PackedFor(lens, cap, shards, result.bins)
    ensures result.Bins? ==> ByAlgorithm(lens, cap, algorithm, packed) && AdjustedFrom(packed, shards, result.bins)
    ensures |lens| < shards ==> !result.Bins?
    ensures shards <= |lens| && |lens| % shards == 0 ==> !result.TooFew?
  {
    match algorithm {
      case ConcatenativePacker(limit) =>
        result := Concatenative(lens, cap, limit);
      case FirstFitDecreasing =>
        DescendingIsPermutation(lens);
        result := FirstFit(lens, cap, Descending(lens));
      case FirstFitShuffle(shuffle) =>
        result := FirstFit(lens, cap, shuffle);
      case ModifiedFirstFitDecreasing =>
        result := ModifiedFirstFit.ModifiedFirstFitDecreasing(lens, cap);
    }
    packed := if result.Bins? then result.bins else [];
    if result.Bins? {
      result := AdjustToShards(lens, cap, result.bins, shards);
    }
  }

  method AdjustToShards(ghost lens: seq<nat>, ghost cap: nat, bins: seq<seq<int>>, shards: nat) returns (result: Packed)
    requires 0 < shards && IsPacking(lens, cap, bins)
    ensures result.Bins? || result.TooFew?
    ensures result.Bins? ==> PackedFor(lens, cap, shards, result.bins) && AdjustedFrom(bins, shards, result.bins)
    ensures |lens| < shards ==> !result.Bins?
    ensures shards <= |lens| && |lens| % shards == 0 ==> !result.TooFew?
  {
    BinsHoldOne(lens, cap, bins);
    PermutationRange(Flatten(bins), |lens|);
    if shards <= |lens| && |lens| % shards == 0 {
      TargetWithin(|bins|, |lens|, shards);
    }
    result := AdjustBinCount(lens, cap, bins, shards, shards);
  }

  datatype Outcome =
    | BadSizes
    | PackingFailed(why: Packed)               // the packer's ValueError
    | Sharded(shards: seq<PackedShard>, order: seq<int>)

  /** Chunk `c` can be packed. */
  ghost predicate ChunkPackable(rows: seq<Row>, bs: nat, c: nat, pad: int, cap: nat, algorithm: Algorithm)
    requires 0 < pad
  {
    Packable(ChunkPadded(rows, bs, c, pad), cap, algorithm)
  }

  lemma ChunkHasRows(rows: seq<Row>, bs: nat, chunks: nat, c: nat, pad: int, lens: seq<nat>)
    requires 0 < pad && ChunkStart(chunks, bs) == |rows| && c < chunks && lens == ChunkPadded(rows, bs, c, pad)
    ensures |lens| == bs
  {
    ChunkEnds(c, chunks, bs);
  }

  method PackOneChunk(rows: seq<Row>, bs: nat, ghost chunks: nat, c: nat, pad: int, cap: nat, shards: nat,
                      algorithm: Algorithm) returns (result: Packed)
    requires 0 < pad && 0 < shards <= bs && bs % shards == 0
    requires ChunkStart(chunks, bs) == |rows| && c < chunks && ShuffleOf(algorithm, bs)
    ensures result.Bins? <==> ChunkPackable(rows, bs, c, pad, cap, algorithm)
    ensures result.Bins? ==> ChunkPacked(rows, bs, c, pad, cap, shards, result.bins)
    ensures !result.Bins? ==> Refused(ChunkPadded(rows, bs, c, pad), cap, algorithm, result)
  {
    var lens := ChunkPadded(rows, bs, c, pad);
    ChunkHasRows(rows, bs, chunks, c, pad, lens);
    ghost var packed;
    result, packed := PackChunk(lens, cap, algorithm, shards);
  }

  lemma PaddedSlice(rows: seq<Row>, pad: int, d: nat, bs: nat, i: nat)
    requires 0 < pad && d + bs <= |rows| && i < bs
    ensures PaddedLengths(Slice(rows, d, d + bs), pad)[i] == PaddedLengths(rows, pad)[d + i]
  {}

  lemma TooLongInChunk(rows: seq<Row>, pad: int, cap: nat, d: nat, bs: nat)
    requires 0 < pad && d + bs <= |rows| && SomeTooLong(PaddedLengths(Slice(rows, d, d + bs), pad), cap)
    ensures SomeTooLong(PaddedLengths(rows, pad), cap)
  {
    var i: nat :| i < bs && PaddedLengths(Slice(rows, d, d + bs), pad)[i] > cap;
    PaddedSlice(rows, pad, d, bs, i);
  }

  ghost predicate PackableUpTo(rows: seq<Row>, bs: nat, pad: int, cap: nat, algorithms: seq<Algorithm>, n: nat)
    requires 0 < pad && n <= |algorithms|
  {
    forall c :: 0 <= c < n ==> ChunkPackable(rows, bs, c, pad, cap, algorithms[c])
  }

  lemma PackableSnoc(rows: seq<Row>, bs: nat, pad: int, cap: nat, algorithms: seq<Algorithm>, n: nat)
    requires 0 < pad && n < |algorithms| && PackableUpTo(rows, bs, pad, cap, algorithms, n)
    requires ChunkPackable(rows, bs, n, pad, cap, algorithms[n])
    ensures PackableUpTo(rows, bs, pad, cap, algorithms, n + 1)
  {}

  /** Chunk `c` is the first that cannot be packed, and `why` is its error. */
  ghost predicate FirstRefused(rows: seq<Row>, bs: nat, pad: int, cap: nat, algorithms: seq<Algorithm>, c: nat,
                               why: Packed)
    requires 0 < pad && c < |algorithms|
  {
    PackableUpTo(rows, bs, pad, cap, algorithms, c) && Refused(ChunkPadded(rows, bs, c, pad), cap, algorithms[c], why)
  }

  method PackChunks(rows: seq<Row>, bs: nat, chunks: nat, pad: int, cap: nat, shards: nat, algorithms: seq<Algorithm>)
    returns (failure: Packed, allBins: seq<seq<seq<int>>>, ghost at: nat)
    requires 0 < pad && 0 < shards <= bs && bs % shards == 0 && ChunkStart(chunks, bs) == |rows|
    requires |algorithms| == chunks
    requires forall c :: 0 <= c < chunks ==> ShuffleOf(algorithms[c], bs)
    ensures failure.Bins? ==> |allBins| == chunks && EachPacked(rows, bs, pad, cap, shards, allBins)
    ensures failure.Bins? ==> PackableUpTo(rows, bs, pad, cap, algorithms, chunks)
    ensures !failure.Bins? ==> at < chunks && FirstRefused(rows, bs, pad, cap, algorithms, at, failure)
  {
    allBins, at := [], 0;
    for c := 0 to chunks
      invariant |allBins| == c && EachPacked(rows, bs, pad, cap, shards, allBins)
      invariant PackableUpTo(rows, bs, pad, cap, algorithms, c)
    {
      failure := PackOneChunk(rows, bs, chunks, c, pad, cap, shards, algorithms[c]);
      if !failure.Bins? {
        at := c;
        return;
      }
      PackedSnoc(rows, bs, pad, cap, shards, allBins, failure.bins);
      PackableSnoc(rows, bs, pad, cap, algorithms, c);
      allBins := allBins + [failure.bins];
    }
    failure := Bins([]);
  }

  /** The error of the first chunk that cannot be packed, told by the rows. */
  lemma RefusedMeans(rows: seq<Row>, bs: nat, pad: int, cap: nat, algorithms: seq<Algorithm>, c: nat, why: Packed)
    requires 0 < pad && ChunkStart(|algorithms|, bs) == |rows| && c < |algorithms|
    requires FirstRefused(rows, bs, pad, cap, algorithms, c, why)
    ensures why.TooLong? || why.NotPositive?
    ensures why.TooLong? ==> SomeTooLong(PaddedLengths(rows, pad), cap)
    ensures why.NotPositive? ==> SomeRejected(rows, bs, pad, cap, algorithms)
  {
    ChunkEnds(c, |algorithms|, bs);
    if why.TooLong? {
      TooLongInChunk(rows, pad, cap, ChunkStart(c, bs), bs);
    }
  }

  /** A chunk for the modified packer has a length of zero, or the capacity is zero. */
  ghost predicate SomeRejected(rows: seq<Row>, bs: nat, pad: int, cap: nat, algorithms: seq<Algorithm>)
    requires 0 < pad
  {
    exists c :: 0 <= c < |algorithms| && Rejects(ChunkPadded(rows, bs, c, pad), cap, algorithms[c])
  }

  lemma PackedSnoc(rows: seq<Row>, bs: nat, pad: int, cap: nat, shards: nat, allBins: seq<seq<seq<int>>>,
                   bins: seq<seq<int>>)
    requires 0 < pad && 0 < shards && EachPacked(rows, bs, pad, cap, shards, allBins)
    requires ChunkPacked(rows, bs, |allBins|, pad, cap, shards, bins)
    ensures EachPacked(rows, bs, pad, cap, shards, allBins + [bins])
  {
    assert (allBins + [bins])[..|allBins|] == allBins;
  }

  /** What was packed fits: no row of any chunk is over capacity. */
  lemma PackedFits(rows: seq<Row>, bs: nat, pad: int, cap: nat, shards: nat, allBins: seq<seq<seq<int>>>)
    requires 0 < pad && 0 < shards && AllPacked(rows, bs, pad, cap, shards, allBins)
    ensures !SomeTooLong(PaddedLengths(rows, pad), cap)
  {
    forall i | 0 <= i < |rows| ensures PaddedLengths(rows, pad)[i] <= cap {
      var c := ChunkHolding(i, |allBins|, bs);
      PackedChunk(rows, bs, pad, cap, shards, allBins, c);
      RowFits(rows, pad, cap, allBins[c], ChunkStart(c, bs), bs, i);
    }
  }

  lemma RowFits(rows: seq<Row>, pad: int, cap: nat, bins: seq<seq<int>>, d: nat, bs: nat, i: nat)
    requires 0 < pad && PackedAt(rows, pad, cap, bins, d, bs) && d <= i < d + bs
    ensures PaddedLengths(rows, pad)[i] <= cap
  {
    var part := PaddedLengths(Slice(rows, d, d + bs), pad);
    assert |part| == bs;
    EachFits(part, cap, bins, i - d);
    PaddedSlice(rows, pad, d, bs, i - d);
  }

  lemma {:induction false} ChunkHolding(i: nat, chunks: nat, bs: nat) returns (c: nat)
    requires i < ChunkStart(chunks, bs)
    ensures c < chunks && ChunkStart(c, bs) <= i < ChunkStart(c, bs) + bs
  {
    if i >= ChunkStart(chunks - 1, bs) { c := chunks - 1; } else { c := ChunkHolding(i, chunks - 1, bs); }
  }

  lemma EachFits(lens: seq<nat>, cap: nat, bins: seq<seq<int>>, i: nat)
    requires IsPacking(lens, cap, bins) && i < |lens|
    ensures lens[i] <= cap
  {
    assert Iota(0, |lens|)[i] == i;
    assert i in multiset(Flatten(bins));
    var b := BinHolding(bins, i);
    assert BinOk(lens, cap, bins[b]);
    LoadAtLeast(lens, bins[b], i);
  }

  lemma {:induction false} BinHolding(bins: seq<seq<int>>, x: int) returns (b: nat)
    requires x in Flatten(bins)
    ensures b < |bins| && x in bins[b]
  {
    var m := |bins| - 1;
    if x in bins[m] { b := m; } else { b := BinHolding(bins[..m], x); }
  }

  /** What is too long: a row whose least multiple of the padding exceeds the capacity. */
  lemma TooLongMeans(rows: seq<Row>, pad: int, cap: nat)
    requires 0 < pad
    ensures SomeTooLong(PaddedLengths(rows, pad), cap) <==>
              exists i, m :: 0 <= i < |rows| && PadsTo(rows[i].length, pad, m) && m > cap
  {
    forall i, m | 0 <= i < |rows| && PadsTo(rows[i].length, pad, m) ensures m == PaddedLengths(rows, pad)[i] {
      PaddedLengthMeans(rows, pad, i);
      PadsOnce(rows[i].length, pad, m, PaddedLengths(rows, pad)[i]);
    }
    forall i | 0 <= i < |rows| ensures PadsTo(rows[i].length, pad, PaddedLengths(rows, pad)[i]) {
      PaddedLengthMeans(rows, pad, i);
    }
  }

  /** `shard_by_batch_size` with sequence packing. */
  method ShardWithPacking(rows: seq<Row>, bs: nat, shards: nat, pad: int, cap: nat, algorithms: seq<Algorithm>)
    returns (outcome: Outcome, ghost allBins: seq<seq<seq<int>>>)
    requires 0 < pad && (bs > 0 ==> |algorithms| == |rows| / bs)
    requires forall c :: 0 <= c < |algorithms| ==> ShuffleOf(algorithms[c], bs)
    ensures outcome.BadSizes? <==> !(0 < bs && 0 < shards && |rows| % bs == 0 && bs % shards == 0)
    ensures outcome.PackingFailed? <==>
              && !outcome.BadSizes?
              && (SomeTooLong(PaddedLengths(rows, pad), cap) || SomeRejected(rows, bs, pad, cap, algorithms))
    ensures outcome.PackingFailed? ==>
              exists c :: 0 <= c < |algorithms| && FirstRefused(rows, bs, pad, cap, algorithms, c, outcome.why)
    ensures outcome.Sharded? ==>
              && 0 < shards && AllPacked(rows, bs, pad, cap, shards, allBins)
              && AllUpTo(rows, allBins, bs, shards, pad, |allBins|, outcome.shards)
              && outcome.order == Flatten(Orders(outcome.shards))
              && Reordered(Flatten(ShardRows(outcome.shards)), outcome.order) == rows
  {
    allBins := [];
    if bs == 0 || shards == 0 || |rows| % bs != 0 || bs % shards != 0 {
      return BadSizes, [];
    }
    ExactChunks(|rows|, bs);
    var failure, bins, at := PackChunks(rows, bs, |rows| / bs, pad, cap, shards, algorithms);
    if !failure.Bins? {
      RefusedMeans(rows, bs, pad, cap, algorithms, at, failure);
      return PackingFailed(failure), [];
    }
    PackedFits(rows, bs, pad, cap, shards, bins);
    PackedInRange(rows, bs, pad, cap, shards, bins);
    var result, order := ShardPacked(rows, bins, bs, shards, pad);
    PackedRoundTrip(rows, bs, pad, cap, shards, bins, result);
    NoneRejected(rows, bs, pad, cap, algorithms);
    outcome, allBins := Sharded(result, order), bins;
  }

  lemma NoneRejected(rows: seq<Row>, bs: nat, pad: int, cap: nat, algorithms: seq<Algorithm>)
    requires 0 < pad && PackableUpTo(rows, bs, pad, cap, algorithms, |algorithms|)
    ensures !SomeRejected(rows, bs, pad, cap, algorithms)
  {
    forall c | 0 <= c < |algorithms| ensures !Rejects(ChunkPadded(rows, bs, c, pad), cap, algorithms[c]) {
      assert ChunkPackable(rows, bs, c, pad, cap, algorithms[c]);
    }
  }

  lemma ExactChunks(total: nat, bs: nat)
    requires 0 < bs && total % bs == 0
    ensures ChunkStart(total / bs, bs) == total
  {
    assert total == bs * (total / bs) + total % bs;
    ChunkStartIs(total / bs, bs);
  }
}
