/** Dynamic batching as a whole: round trip, balance between shards, and schedules that no
    other grouping beats (`shard_by_batch_size`, `make_microbatch_iterator_with_dynamic_shapes`,
    nemo_rl/distributed/batched_data_dict.py). */
module DynamicBatching {
  import opened Lists
  import opened Sorting
  import opened Rows
  import opened Sharding
  import Microbatches

  /** `batch_size` and `shards` as the original's assertions demand them. */
  ghost predicate Divides(total: nat, bs: nat, shards: nat, size: nat, chunks: nat) {
    0 < shards && 0 < bs && bs == shards * size && total == chunks * bs
  }

  // ---------------------------------------------------------------- round trip

  /** One chunk: the shards in order, reordered by the returned indices, are the batch. */
  lemma OneChunkRoundTrip<T>(rows: seq<T>, lens: seq<int>, shards: nat, size: nat)
    requires |lens| == |rows| && Divides(|rows|, |rows|, shards, size, 1)
    ensures IsPermutation(BatchOrder(lens, |rows|, shards, 1), |rows|)
    ensures InRange(BatchOrder(lens, |rows|, shards, 1), |rows|)
    ensures var order := BatchOrder(lens, |rows|, shards, 1);
            var data := Select(rows, order);
            Reordered(Flatten(AllShards(data, shards, size, |rows|, 1)), order) == rows
  {
    OrderIsPermutation(lens, |rows|, shards, 1);
    var order := BatchOrder(lens, |rows|, shards, 1);
    OneChunkConcatenates(Select(rows, order), shards, size);
    ReorderUndoesSelect(rows, order);
  }

  lemma SubShardLength<T>(data: seq<T>, i: nat, size: nat, bs: nat, shards: nat, chunks: nat, c: nat)
    requires Divides(|data|, bs, shards, size, chunks) && i < shards && c < chunks
    ensures Start(i, size, bs, c) + size <= (c + 1) * bs <= |data|
    ensures |SubShard(data, i, size, bs, c)| == size
  {
    BlockBounds(c, chunks, bs);
    BlockBounds(i, shards, size);
  }

  lemma ShardsAreBlocks<T>(data: seq<T>, size: nat, bs: nat, shards: nat, chunks: nat, i: nat)
    requires Divides(|data|, bs, shards, size, chunks) && i < shards
    ensures AllOfLength(SubShards(data, i, size, bs, chunks), size)
    ensures |ShardOf(data, i, size, bs, chunks)| == chunks * size
  {
    forall c | 0 <= c < chunks ensures |SubShard(data, i, size, bs, c)| == size {
      SubShardLength(data, i, size, bs, shards, chunks, c);
    }
    FlattenLength(SubShards(data, i, size, bs, chunks), size);
  }

  /** Chunk `c` of shard `i` is what was dealt to it from chunk `c` of the batch. */
  lemma ChunkOfShard<T>(data: seq<T>, size: nat, bs: nat, shards: nat, chunks: nat, i: nat, c: nat)
    requires Divides(|data|, bs, shards, size, chunks) && i < shards && c < chunks
    ensures Slice(ShardOf(data, i, size, bs, chunks), c * size, (c + 1) * size) == SubShard(data, i, size, bs, c)
  {
    ShardsAreBlocks(data, size, bs, shards, chunks, i);
    FlattenBlock(SubShards(data, i, size, bs, chunks), size, c);
  }

  lemma AllShardsLength<T>(data: seq<T>, size: nat, bs: nat, shards: nat, chunks: nat)
    requires Divides(|data|, bs, shards, size, chunks)
    ensures AllOfLength(AllShards(data, shards, size, bs, chunks), chunks * size)
    ensures |Flatten(AllShards(data, shards, size, bs, chunks))| == |data|
  {
    forall i | 0 <= i < shards ensures |ShardOf(data, i, size, bs, chunks)| == chunks * size {
      ShardsAreBlocks(data, size, bs, shards, chunks, i);
    }
    FlattenLength(AllShards(data, shards, size, bs, chunks), chunks * size);
    Regroup(shards, chunks, size);
  }

  lemma Regroup(a: nat, b: nat, c: nat)
    ensures a * (b * c) == b * (a * c)
  {}

  /** With several chunks and several shards the concatenated shards are in another order:
      right after chunk 0's part of shard 0 comes chunk 1's part of shard 0. */
  lemma SecondBlock<T>(data: seq<T>, size: nat, bs: nat, shards: nat, chunks: nat)
    requires Divides(|data|, bs, shards, size, chunks) && 1 < shards && 1 < chunks && 0 < size
    ensures size < bs < |data|
    ensures |Flatten(AllShards(data, shards, size, bs, chunks))| == |data|
    ensures Flatten(AllShards(data, shards, size, bs, chunks))[size] == data[bs]
  {
    var all := AllShards(data, shards, size, bs, chunks);
    AllShardsLength(data, size, bs, shards, chunks);
    BlockBounds(1, chunks, size);
    BlockBounds(1, chunks, bs);
    BlockBounds(1, shards, size);
    ChunkOfShard(data, size, bs, shards, chunks, 0, 1);
    FlattenBlock(all, chunks * size, 0);
    SubShardLength(data, 0, size, bs, shards, chunks, 1);
    var first := ShardOf(data, 0, size, bs, chunks);
    assert first == Slice(Flatten(all), 0, chunks * size);
    assert first[size] == Slice(first, size, 2 * size)[0];
  }

  lemma OnlyShardPart<T>(data: seq<T>, bs: nat, c: nat)
    ensures SubShard(data, 0, bs, bs, c) == Slice(data, c * bs, (c + 1) * bs) && c * bs <= (c + 1) * bs
  {
    assert (c + 1) * bs == c * bs + bs && 0 * bs == 0;
  }

  lemma {:induction false} OneShardPrefix<T>(data: seq<T>, bs: nat, chunks: nat)
    ensures ShardOf(data, 0, bs, bs, chunks) == Slice(data, 0, chunks * bs)
  {
    var subs := SubShards(data, 0, bs, bs, chunks);
    if chunks == 0 {
      assert subs == [] && 0 * bs == 0;
    } else {
      var c := chunks - 1;
      OneShardPrefix(data, bs, c);
      OnlyShardPart(data, bs, c);
      JoinSlices(data, c * bs, chunks * bs, ShardOf(data, 0, bs, bs, c), subs[c]);
      assert subs[..c] == SubShards(data, 0, bs, bs, c);
    }
  }

  lemma JoinSlices<T>(data: seq<T>, a: nat, b: nat, x: seq<T>, y: seq<T>)
    requires a <= b && x == Slice(data, 0, a) && y == Slice(data, a, b)
    ensures x + y == Slice(data, 0, b)
  {
    SliceSlice(data, a, b);
  }

  lemma OneShardConcatenates<T>(data: seq<T>, bs: nat, chunks: nat)
    requires |data| == chunks * bs
    ensures Flatten(AllShards(data, 1, bs, bs, chunks)) == data
  {
    OneShardPrefix(data, bs, chunks);
    var all := AllShards(data, 1, bs, bs, chunks);
    assert all[..0] == [];
    assert Flatten(all) == Flatten(all[..0]) + all[0] == all[0];
  }

  /** When reordering the concatenated shards by the returned indices restores the batch:
      exactly when there is one chunk or one shard. */
  lemma RoundTripIff<T(!new)>(rows: seq<T>, lens: seq<int>, bs: nat, shards: nat, size: nat, chunks: nat)
    requires |lens| == |rows| && Divides(|rows|, bs, shards, size, chunks) && Distinct(rows) && rows != []
    ensures InRange(BatchOrder(lens, bs, shards, chunks), |rows|)
    ensures var order := BatchOrder(lens, bs, shards, chunks);
            var shardRows := Flatten(AllShards(Select(rows, order), shards, size, bs, chunks));
            Reordered(shardRows, order) == rows <==> chunks == 1 || shards == 1
  {
    OrderIsPermutation(lens, bs, shards, chunks);
    var order := BatchOrder(lens, bs, shards, chunks);
    var data := Select(rows, order);
    ReorderUndoesSelect(rows, order);
    if shards == 1 {
      OneShardConcatenates(data, bs, chunks);
    } else if chunks == 1 {
      OneChunkConcatenates(data, shards, size);
    } else {
      SeveralChunksDiffer(rows, order, bs, shards, size, chunks);
    }
  }

  lemma SeveralChunksDiffer<T(!new)>(rows: seq<T>, order: seq<int>, bs: nat, shards: nat, size: nat, chunks: nat)
    requires Divides(|rows|, bs, shards, size, chunks) && Distinct(rows) && 1 < shards && 1 < chunks
    requires IsPermutation(order, |rows|) && InRange(order, |rows|)
    ensures Reordered(Flatten(AllShards(Select(rows, order), shards, size, bs, chunks)), order) != rows
  {
    PermutationRange(order, |rows|);
    var data := Select(rows, order);
    var all := Flatten(AllShards(data, shards, size, bs, chunks));
    assert shards * 0 == 0;
    SecondBlock(data, size, bs, shards, chunks);
    ReorderUndoesSelect(rows, order);
    if Reordered(all, order) == rows {
      ReorderInjective(all, data, order);
      assert order[size] == order[bs];
      PermutationDistinct(order, |rows|, size, bs);
    }
  }

  // ---------------------------------------------------------------- dealing out a sorted chunk

  lemma OrderBlocks(lens: seq<int>, bs: nat, shards: nat, size: nat, chunks: nat, c: nat)
    requires Divides(|lens|, bs, shards, size, chunks) && c < chunks
    ensures AllOfLength(Strides(SortedChunk(lens, bs, c), shards, shards), size)
    ensures |Flatten(Strides(SortedChunk(lens, bs, c), shards, shards))| == bs
  {
    SortedChunkIsChunk(lens, bs, chunks, c);
    var s := SortedChunk(lens, bs, c);
    assert shards * 0 == 0;
    forall i | 0 <= i < shards ensures |Strides(s, shards, shards)[i]| == size {
      StrideCount(s, i, shards, size);
    }
    FlattenLength(Strides(s, shards, shards), size);
  }

  lemma StrideCount<T>(s: seq<T>, i: nat, k: nat, m: nat)
    requires i < k && |s| == k * m && 0 < m
    ensures |Stride(s, i, k)| == m
  {
    assert k * m == (m - 1) * k + k;
    StrideLength(s, i, k, m);
  }

  lemma SliceOfSlice<T>(s: seq<T>, a: nat, n: nat, b: nat, m: nat)
    requires a + n <= |s| && b + m <= n
    ensures Slice(s, a + b, a + b + m) == Slice(Slice(s, a, a + n), b, b + m)
  {
    var inner, outer := Slice(Slice(s, a, a + n), b, b + m), Slice(s, a + b, a + b + m);
    assert |inner| == |outer| == m;
    forall k | 0 <= k < m ensures inner[k] == outer[k] {
      assert Slice(s, a, a + n)[b + k] == s[a + b + k];
    }
  }

  lemma DealtBlocks(lens: seq<int>, bs: nat, shards: nat, size: nat, chunks: nat, c: nat)
    requires Divides(|lens|, bs, shards, size, chunks) && c < chunks
    ensures c * bs + bs <= |BatchOrder(lens, bs, shards, chunks)|
    ensures Slice(BatchOrder(lens, bs, shards, chunks), c * bs, c * bs + bs)
         == Flatten(Strides(SortedChunk(lens, bs, c), shards, shards))
  {
    var blocks := ChunkOrders(lens, bs, shards, chunks);
    forall d | 0 <= d < chunks ensures |blocks[d]| == bs {
      OrderBlocks(lens, bs, shards, size, chunks, d);
    }
    FlattenBlock(blocks, bs, c);
    assert (c + 1) * bs == c * bs + bs;
  }

  lemma DealtWithin(s: seq<int>, shards: nat, size: nat, i: nat)
    requires i < shards && AllOfLength(Strides(s, shards, shards), size)
    ensures i * size + size <= |Flatten(Strides(s, shards, shards))|
    ensures Slice(Flatten(Strides(s, shards, shards)), i * size, i * size + size) == Stride(s, i, shards)
  {
    FlattenBlock(Strides(s, shards, shards), size, i);
    assert (i + 1) * size == i * size + size;
  }

  /** The indices dealt to shard `i` from chunk `c`: every `shards`-th of the chunk's sorted
      indices, starting with the `i`-th. */
  lemma DealtIndices(lens: seq<int>, bs: nat, shards: nat, size: nat, chunks: nat, c: nat, i: nat)
    requires Divides(|lens|, bs, shards, size, chunks) && c < chunks && i < shards
    ensures SubShard(BatchOrder(lens, bs, shards, chunks), i, size, bs, c)
         == Stride(SortedChunk(lens, bs, c), i, shards)
  {
    DealtBlocks(lens, bs, shards, size, chunks, c);
    OrderBlocks(lens, bs, shards, size, chunks, c);
    DealtWithin(SortedChunk(lens, bs, c), shards, size, i);
    SubShardOfChunk(BatchOrder(lens, bs, shards, chunks), Flatten(Strides(SortedChunk(lens, bs, c), shards, shards)),
                    i, size, bs, c);
  }

  lemma SubShardOfChunk<T>(data: seq<T>, chunk: seq<T>, i: nat, size: nat, bs: nat, c: nat)
    requires c * bs + bs <= |data| && Slice(data, c * bs, c * bs + bs) == chunk && i * size + size <= |chunk|
    ensures SubShard(data, i, size, bs, c) == Slice(chunk, i * size, i * size + size)
  {
    SliceOfSlice(data, c * bs, bs, i * size, size);
  }

  // ---------------------------------------------------------------- rows

  /** The batch in the order of the returned indices. */
  ghost function Rearranged(rows: seq<Row>, bs: nat, shards: nat, size: nat, chunks: nat): (data: seq<Row>)
    requires Divides(|rows|, bs, shards, size, chunks)
    ensures |data| == |rows|
  {
    OrderIsPermutation(Lengths(rows), bs, shards, chunks);
    Select(rows, BatchOrder(Lengths(rows), bs, shards, chunks))
  }

  /** Row lengths of chunk `c` in every shard. */
  function ChunkLengths(data: seq<Row>, shards: nat, size: nat, bs: nat, c: nat): (r: seq<seq<nat>>)
    ensures |r| == shards
    ensures forall i :: 0 <= i < shards ==> r[i] == Lengths(SubShard(data, i, size, bs, c))
  {
    seq(shards, (i: nat) => Lengths(SubShard(data, i, size, bs, c)))
  }

  /** The row lengths of chunk `c`, ascending. */
  function SortedLengths(rows: seq<Row>, bs: nat, c: nat): seq<nat> {
    var keys := Slice(Lengths(rows), c * bs, (c + 1) * bs);
    Select(keys, SortedRange(keys))
  }

  lemma SortedLengthsOfChunk(rows: seq<Row>, bs: nat, chunks: nat, c: nat)
    requires |rows| == chunks * bs && c < chunks
    ensures |SortedLengths(rows, bs, c)| == bs && NonDecreasing(SortedLengths(rows, bs, c))
    ensures InRange(SortedChunk(Lengths(rows), bs, c), |rows|)
    ensures SortedLengths(rows, bs, c) == Lengths(Select(rows, SortedChunk(Lengths(rows), bs, c)))
  {
    BlockBounds(c, chunks, bs);
    SortedBlock(rows, c * bs, bs);
  }

  lemma SortedBlock(rows: seq<Row>, a: nat, n: nat)
    requires a + n <= |rows|
    ensures var keys := Slice(Lengths(rows), a, a + n);
            && |keys| == n && NonDecreasing(Select(keys, SortedRange(keys)))
            && InRange(Shift(SortedRange(keys), a), |rows|)
            && Select(keys, SortedRange(keys)) == Lengths(Select(rows, Shift(SortedRange(keys), a)))
  {
    var keys := Slice(Lengths(rows), a, a + n);
    SortedRangeIsStableSort(keys);
    ShiftedLengths(rows, a, n, SortedRange(keys));
  }

  lemma ShiftedLengths(rows: seq<Row>, a: nat, n: nat, p: seq<int>)
    requires a + n <= |rows| && InRange(p, n)
    ensures InRange(Shift(p, a), |rows|)
    ensures Select(Slice(Lengths(rows), a, a + n), p) == Lengths(Select(rows, Shift(p, a)))
  {}

  lemma SelectSlice<T>(s: seq<T>, p: seq<int>, a: nat, b: nat)
    requires InRange(p, |s|)
    ensures InRange(Slice(p, a, b), |s|)
    ensures Slice(Select(s, p), a, b) == Select(s, Slice(p, a, b))
  {}

  lemma {:induction false} StrideLengths(rows: seq<Row>, p: seq<int>, i: nat, k: nat)
    requires 0 < k && InRange(p, |rows|)
    ensures InRange(Stride(p, i, k), |rows|)
    ensures Lengths(Select(rows, Stride(p, i, k))) == Stride(Lengths(Select(rows, p)), i, k)
    decreases |p| - i
  {
    if i < |p| { StrideLengths(rows, p, i + k, k); }
  }

  /** Shard `i` gets from chunk `c` every `shards`-th of its lengths in ascending order. */
  lemma DealtLengths(rows: seq<Row>, bs: nat, shards: nat, size: nat, chunks: nat, c: nat, i: nat)
    requires Divides(|rows|, bs, shards, size, chunks) && c < chunks && i < shards
    ensures Lengths(SubShard(Rearranged(rows, bs, shards, size, chunks), i, size, bs, c))
         == Stride(SortedLengths(rows, bs, c), i, shards)
  {
    DealtRange(rows, bs, shards, size, chunks, c);
    DealtIndices(Lengths(rows), bs, shards, size, chunks, c, i);
    StridedRows(rows, BatchOrder(Lengths(rows), bs, shards, chunks), SortedChunk(Lengths(rows), bs, c),
                i, shards, size, bs, c);
  }

  lemma DealtRange(rows: seq<Row>, bs: nat, shards: nat, size: nat, chunks: nat, c: nat)
    requires Divides(|rows|, bs, shards, size, chunks) && c < chunks
    ensures InRange(BatchOrder(Lengths(rows), bs, shards, chunks), |rows|)
    ensures InRange(SortedChunk(Lengths(rows), bs, c), |rows|)
    ensures Rearranged(rows, bs, shards, size, chunks) == Select(rows, BatchOrder(Lengths(rows), bs, shards, chunks))
    ensures SortedLengths(rows, bs, c) == Lengths(Select(rows, SortedChunk(Lengths(rows), bs, c)))
  {
    OrderIsPermutation(Lengths(rows), bs, shards, chunks);
    SortedLengthsOfChunk(rows, bs, chunks, c);
  }

  lemma StridedRows(rows: seq<Row>, order: seq<int>, sorted: seq<int>, i: nat, shards: nat, size: nat, bs: nat, c: nat)
    requires 0 < shards && InRange(order, |rows|) && InRange(sorted, |rows|)
    requires SubShard(order, i, size, bs, c) == Stride(sorted, i, shards)
    ensures Lengths(SubShard(Select(rows, order), i, size, bs, c)) == Stride(Lengths(Select(rows, sorted)), i, shards)
  {
    DealtRows(rows, order, i, size, bs, c);
    StrideLengths(rows, sorted, i, shards);
  }

  lemma DealtRows(rows: seq<Row>, order: seq<int>, i: nat, size: nat, bs: nat, c: nat)
    requires InRange(order, |rows|)
    ensures InRange(SubShard(order, i, size, bs, c), |rows|)
    ensures SubShard(Select(rows, order), i, size, bs, c) == Select(rows, SubShard(order, i, size, bs, c))
  {
    SelectSlice(rows, order, Start(i, size, bs, c), Start(i, size, bs, c) + size);
  }

  // ---------------------------------------------------------------- balance

  /** Two interleaved lists a[0] <= b[0] <= a[1] <= b[1] <= ... */
  predicate Interleaved(a: seq<int>, b: seq<int>) {
    && |a| == |b|
    && (forall q :: 0 <= q < |a| ==> a[q] <= b[q])
    && (forall q :: 0 < q < |a| ==> b[q - 1] <= a[q])
  }

  lemma {:induction false} InterleavedSums(a: seq<int>, b: seq<int>)
    requires Interleaved(a, b) && a != []
    ensures 0 <= Sum(b) - Sum(a) <= b[|b| - 1] - a[0]
  {
    var m := |a| - 1;
    if m == 0 {
      assert Sum(a) == Sum(a[..0]) + a[0] && Sum(b) == Sum(b[..0]) + b[0];
    } else {
      InterleavedSums(a[..m], b[..m]);
    }
  }

  lemma {:induction false} StridesInterleave(s: seq<nat>, i: nat, j: nat, k: nat)
    requires NonDecreasing(s) && i < j < i + k && |Stride(s, i, k)| == |Stride(s, j, k)|
    ensures Interleaved(Stride(s, i, k), Stride(s, j, k))
    ensures Stride(s, i, k) != [] ==> s[0] <= Stride(s, i, k)[0]
    decreases |s| - i
  {
    if i < |s| && j < |s| {
      StridesInterleave(s, i + k, j + k, k);
      var a, b := Stride(s, i, k), Stride(s, j, k);
      assert a == [s[i]] + Stride(s, i + k, k) && b == [s[j]] + Stride(s, j + k, k);
      forall q | 0 <= q < |a| ensures a[q] <= b[q] && (q > 0 ==> b[q - 1] <= a[q]) {
        if q > 1 { assert b[q - 1] == Stride(s, j + k, k)[q - 2]; }
      }
    }
  }

  lemma {:induction false} StrideAscends(s: seq<nat>, i: nat, k: nat)
    requires 0 < k && NonDecreasing(s)
    ensures NonDecreasing(Stride(s, i, k))
    ensures Stride(s, i, k) != [] ==>
              && i < |s| && Stride(s, i, k)[0] == s[i]
              && Stride(s, i, k)[|Stride(s, i, k)| - 1] <= s[|s| - 1]
    decreases |s| - i
  {
    if i < |s| {
      StrideAscends(s, i + k, k);
      var rest := Stride(s, i + k, k);
      AscendFrom(s[i], rest);
    }
  }

  lemma AscendFrom(x: int, s: seq<int>)
    requires NonDecreasing(s) && (s != [] ==> x <= s[0])
    ensures NonDecreasing([x] + s)
  {}

  /** Last minus first. */
  function Spread(s: seq<nat>): int {
    if s == [] then 0 else s[|s| - 1] as int - s[0] as int
  }

  /** Any two shards' parts of a chunk differ in total length by at most the difference
      between the longest and the shortest row of the chunk. */
  lemma ShardsAreBalanced(rows: seq<Row>, bs: nat, shards: nat, size: nat, chunks: nat, c: nat, i: nat, j: nat)
    requires Divides(|rows|, bs, shards, size, chunks) && c < chunks && i < j < shards
    ensures var data := Rearranged(rows, bs, shards, size, chunks);
            0 <= Sum(Lengths(SubShard(data, j, size, bs, c))) - Sum(Lengths(SubShard(data, i, size, bs, c)))
              <= Spread(SortedLengths(rows, bs, c))
  {
    DealtSum(rows, bs, shards, size, chunks, c, i);
    DealtSum(rows, bs, shards, size, chunks, c, j);
    StrideSumsClose(SortedLengths(rows, bs, c), i, j, shards);
  }

  lemma DealtSum(rows: seq<Row>, bs: nat, shards: nat, size: nat, chunks: nat, c: nat, i: nat)
    requires Divides(|rows|, bs, shards, size, chunks) && c < chunks && i < shards
    ensures |SortedLengths(rows, bs, c)| == bs && NonDecreasing(SortedLengths(rows, bs, c))
    ensures |Stride(SortedLengths(rows, bs, c), i, shards)| == size > 0
    ensures Sum(Lengths(SubShard(Rearranged(rows, bs, shards, size, chunks), i, size, bs, c)))
         == Sum(Stride(SortedLengths(rows, bs, c), i, shards))
  {
    DealtLengths(rows, bs, shards, size, chunks, c, i);
    DealtCount(rows, bs, shards, size, chunks, c, i);
  }

  lemma DealtCount(rows: seq<Row>, bs: nat, shards: nat, size: nat, chunks: nat, c: nat, i: nat)
    requires Divides(|rows|, bs, shards, size, chunks) && c < chunks && i < shards
    ensures |SortedLengths(rows, bs, c)| == bs && NonDecreasing(SortedLengths(rows, bs, c))
    ensures |Stride(SortedLengths(rows, bs, c), i, shards)| == size > 0
  {
    SortedLengthsOfChunk(rows, bs, chunks, c);
    assert shards * 0 == 0;
    StrideCount(SortedLengths(rows, bs, c), i, shards, size);
  }

  lemma StrideSumsClose(s: seq<nat>, i: nat, j: nat, k: nat)
    requires NonDecreasing(s) && i < j < k && |Stride(s, i, k)| == |Stride(s, j, k)| > 0
    ensures s != [] && 0 <= Sum(Stride(s, j, k)) - Sum(Stride(s, i, k)) <= s[|s| - 1] - s[0]
  {
    StridesInterleave(s, i, j, k);
    InterleavedSums(Stride(s, i, k), Stride(s, j, k));
    StrideAscends(s, j, k);
  }

  // ---------------------------------------------------------------- schedules

  lemma {:induction false} LongestAscends(lists: seq<seq<nat>>, p: nat, q: nat)
    requires p <= q && forall s :: s in lists ==> q < |s| && NonDecreasing(s)
    ensures Microbatches.LongestAt(lists, p) <= Microbatches.LongestAt(lists, q)
  {
    if lists != [] {
      var last := lists[|lists| - 1];
      assert last in lists && last[p] <= last[q];
      LongestAscends(lists[..|lists| - 1], p, q);
    }
  }

  /** The padded lengths the microbatch loop works with never decrease within a chunk. */
  lemma PositionsAscend(rows: seq<Row>, bs: nat, shards: nat, size: nat, chunks: nat, c: nat, roundTo: int, width: nat)
    requires Divides(|rows|, bs, shards, size, chunks) && c < chunks && 0 < roundTo
    ensures var lists := ChunkLengths(Rearranged(rows, bs, shards, size, chunks), shards, size, bs, c);
            && Microbatches.SameLength(lists, size)
            && NonDecreasing(Microbatches.PositionLengths(lists, size, roundTo, width))
  {
    var lists := ChunkLengths(Rearranged(rows, bs, shards, size, chunks), shards, size, bs, c);
    forall s | s in lists ensures |s| == size && NonDecreasing(s) {
      var i :| 0 <= i < shards && s == lists[i];
      DealtLengths(rows, bs, shards, size, chunks, c, i);
      DealtCount(rows, bs, shards, size, chunks, c, i);
      StrideAscends(SortedLengths(rows, bs, c), i, shards);
    }
    ListsAscend(lists, size, roundTo, width);
  }

  lemma ListsAscend(lists: seq<seq<nat>>, size: nat, roundTo: int, width: nat)
    requires Microbatches.SameLength(lists, size) && 0 < roundTo
    requires forall s :: s in lists ==> NonDecreasing(s)
    ensures NonDecreasing(Microbatches.PositionLengths(lists, size, roundTo, width))
  {
    var lens := Microbatches.PositionLengths(lists, size, roundTo, width);
    forall p, q | 0 <= p <= q < size ensures lens[p] <= lens[q] {
      LongestAscends(lists, p, q);
      Microbatches.PaddedAscends(Microbatches.LongestAt(lists, p), Microbatches.LongestAt(lists, q), roundTo, width);
    }
  }

  // ---------------------------------------------------------------- the whole operation

  datatype Sharded =
    | BadSizes                     // AssertionError or ZeroDivisionError on the sizes
    | RowTooLong                   // AssertionError: a row longer than a microbatch
    | Sharded(shards: seq<seq<Row>>, plans: seq<Microbatches.Plan>, order: seq<int>)

  predicate GoodSizes(total: nat, bs: nat, shards: nat) {
    0 < bs && 0 < shards && total % bs == 0 && bs % shards == 0
  }

  lemma GoodSizesDivide(total: nat, bs: nat, shards: nat)
    requires GoodSizes(total, bs, shards)
    ensures Divides(total, bs, shards, bs / shards, total / bs)
  {
    assert total == bs * (total / bs) + total % bs;
    assert bs == shards * (bs / shards) + bs % shards;
    assert bs * (total / bs) == (total / bs) * bs;
  }

  /** Padded length per position of chunk `c`, over all shards. */
  ghost function ChunkPositions(rows: seq<Row>, bs: nat, shards: nat, size: nat, chunks: nat, c: nat,
                                roundTo: int, width: nat): (lens: seq<nat>)
    requires Divides(|rows|, bs, shards, size, chunks) && c < chunks && 0 < roundTo
    ensures |lens| == size && NonDecreasing(lens)
  {
    PositionsAscend(rows, bs, shards, size, chunks, c, roundTo, width);
    Microbatches.PositionLengths(ChunkLengths(Rearranged(rows, bs, shards, size, chunks), shards, size, bs, c),
                                 size, roundTo, width)
  }

  /** Lengths of positions from, ..., to - 1 as the loop reads them from the shards. */
  method ReadChunk(shardRows: seq<seq<Row>>, from: nat, to: nat) returns (lists: seq<seq<nat>>)
    ensures |lists| == |shardRows|
    ensures forall i :: 0 <= i < |shardRows| ==> lists[i] == Lengths(Slice(shardRows[i], from, to))
  {
    lists := [];
    for i := 0 to |shardRows|
      invariant |lists| == i
      invariant forall k :: 0 <= k < i ==> lists[k] == Lengths(Slice(shardRows[k], from, to))
    {
      lists := lists + [Lengths(Slice(shardRows[i], from, to))];
    }
  }

  lemma ReadsChunk(data: seq<Row>, size: nat, bs: nat, shards: nat, chunks: nat, c: nat, shardRows: seq<seq<Row>>,
                   from: nat, to: nat, lists: seq<seq<nat>>)
    requires Divides(|data|, bs, shards, size, chunks) && c < chunks && |lists| == shards
    requires shardRows == AllShards(data, shards, size, bs, chunks) && from == c * size && to == (c + 1) * size
    requires forall i :: 0 <= i < shards ==> lists[i] == Lengths(Slice(shardRows[i], from, to))
    ensures lists == ChunkLengths(data, shards, size, bs, c)
  {
    forall i | 0 <= i < shards ensures lists[i] == Lengths(SubShard(data, i, size, bs, c)) {
      ChunkOfShard(data, size, bs, shards, chunks, i, c);
    }
  }

  ghost predicate PlansFor(rows: seq<Row>, bs: nat, shards: nat, size: nat, chunks: nat, roundTo: int, width: nat,
                           cap: int, plans: seq<Microbatches.Plan>)
    requires Divides(|rows|, bs, shards, size, chunks) && 0 < roundTo
  {
    |plans| <= chunks && forall c :: 0 <= c < |plans| ==>
      PlanFor(rows, bs, shards, size, chunks, c, roundTo, width, cap, plans[c])
  }

  ghost predicate PlanFor(rows: seq<Row>, bs: nat, shards: nat, size: nat, chunks: nat, c: nat, roundTo: int,
                          width: nat, cap: int, plan: Microbatches.Plan)
    requires Divides(|rows|, bs, shards, size, chunks) && c < chunks && 0 < roundTo
  {
    plan.Plan? && Microbatches.IsPlan(ChunkPositions(rows, bs, shards, size, chunks, c, roundTo, width), cap, plan)
  }

  lemma PositionsOfLists(rows: seq<Row>, bs: nat, shards: nat, size: nat, chunks: nat, c: nat, roundTo: int, width: nat,
                         lists: seq<seq<nat>>)
    requires Divides(|rows|, bs, shards, size, chunks) && c < chunks && 0 < roundTo
    requires lists == ChunkLengths(Rearranged(rows, bs, shards, size, chunks), shards, size, bs, c)
    ensures Microbatches.SameLength(lists, size)
    ensures Microbatches.PositionLengths(lists, size, roundTo, width)
         == ChunkPositions(rows, bs, shards, size, chunks, c, roundTo, width)
  {
    PositionsAscend(rows, bs, shards, size, chunks, c, roundTo, width);
  }

  /** The row lengths of chunk `c` in every shard, as the loop finds them. */
  method ChunkLists(ghost data: seq<Row>, shardRows: seq<seq<Row>>, ghost bs: nat, ghost shards: nat, size: nat,
                    ghost chunks: nat, c: nat) returns (lists: seq<seq<nat>>)
    requires Divides(|data|, bs, shards, size, chunks) && c < chunks
    requires shardRows == AllShards(data, shards, size, bs, chunks)
    ensures lists == ChunkLengths(data, shards, size, bs, c)
  {
    var from, to := c * size, (c + 1) * size;
    lists := ReadChunk(shardRows, from, to);
    ReadsChunk(data, size, bs, shards, chunks, c, shardRows, from, to, lists);
  }

  method PlanOneChunk(ghost rows: seq<Row>, shardRows: seq<seq<Row>>, bs: nat, shards: nat, size: nat, chunks: nat,
                      c: nat, roundTo: int, width: nat, cap: int) returns (plan: Microbatches.Plan)
    requires Divides(|rows|, bs, shards, size, chunks) && c < chunks && 0 < roundTo
    requires shardRows == AllShards(Rearranged(rows, bs, shards, size, chunks), shards, size, bs, chunks)
    ensures Microbatches.IsPlan(ChunkPositions(rows, bs, shards, size, chunks, c, roundTo, width), cap, plan)
  {
    var lists := ChunkLists(Rearranged(rows, bs, shards, size, chunks), shardRows, bs, shards, size, chunks, c);
    PositionsOfLists(rows, bs, shards, size, chunks, c, roundTo, width, lists);
    plan := Microbatches.PlanChunk(lists, size, roundTo, width, cap);
  }

  /** Some row of chunk `c` does not fit a microbatch. */
  ghost predicate ChunkTooLong(rows: seq<Row>, bs: nat, shards: nat, size: nat, chunks: nat, c: nat,
                               roundTo: int, width: nat, cap: int)
    requires Divides(|rows|, bs, shards, size, chunks) && c < chunks && 0 < roundTo
  {
    exists len :: len in ChunkPositions(rows, bs, shards, size, chunks, c, roundTo, width) && len > cap
  }

  method PlanChunks(ghost rows: seq<Row>, shardRows: seq<seq<Row>>, bs: nat, shards: nat, size: nat, chunks: nat,
                    roundTo: int, width: nat, cap: int) returns (tooLong: bool, plans: seq<Microbatches.Plan>)
    requires Divides(|rows|, bs, shards, size, chunks) && 0 < roundTo
    requires shardRows == AllShards(Rearranged(rows, bs, shards, size, chunks), shards, size, bs, chunks)
    ensures PlansFor(rows, bs, shards, size, chunks, roundTo, width, cap, plans)
    ensures !tooLong ==> |plans| == chunks
    ensures tooLong ==> |plans| < chunks && ChunkTooLong(rows, bs, shards, size, chunks, |plans|, roundTo, width, cap)
  {
    plans := [];
    for c := 0 to chunks
      invariant |plans| == c && PlansFor(rows, bs, shards, size, chunks, roundTo, width, cap, plans)
    {
      var plan := PlanOneChunk(rows, shardRows, bs, shards, size, chunks, c, roundTo, width, cap);
      if plan.TooLong? {
        PlanTooLong(ChunkPositions(rows, bs, shards, size, chunks, c, roundTo, width), cap);
        return true, plans;
      }
      PlansSnoc(rows, bs, shards, size, chunks, roundTo, width, cap, plans, plan);
      plans := plans + [plan];
    }
    tooLong := false;
  }

  lemma PlanTooLong(lens: seq<nat>, cap: int)
    requires Microbatches.IsPlan(lens, cap, Microbatches.TooLong)
    ensures exists len :: len in lens && len > cap
  {
    var p :| 0 <= p < |lens| && lens[p] > cap;
    assert lens[p] in lens;
  }

  lemma PlansSnoc(rows: seq<Row>, bs: nat, shards: nat, size: nat, chunks: nat, roundTo: int, width: nat, cap: int,
                  plans: seq<Microbatches.Plan>, plan: Microbatches.Plan)
    requires Divides(|rows|, bs, shards, size, chunks) && 0 < roundTo && |plans| < chunks
    requires PlansFor(rows, bs, shards, size, chunks, roundTo, width, cap, plans)
    requires PlanFor(rows, bs, shards, size, chunks, |plans|, roundTo, width, cap, plan)
    ensures PlansFor(rows, bs, shards, size, chunks, roundTo, width, cap, plans + [plan])
  {
    var all := plans + [plan];
    forall c | 0 <= c < |all| ensures PlanFor(rows, bs, shards, size, chunks, c, roundTo, width, cap, all[c]) {
      if c < |plans| {
        assert all[c] == plans[c];
      } else {
        assert all[c] == plan && c == |plans|;
      }
    }
  }

  lemma PlannedFits(rows: seq<Row>, bs: nat, shards: nat, size: nat, chunks: nat, roundTo: int, width: nat, cap: int,
                    plans: seq<Microbatches.Plan>, c: nat)
    requires Divides(|rows|, bs, shards, size, chunks) && 0 < roundTo && c < |plans| <= chunks
    requires PlansFor(rows, bs, shards, size, chunks, roundTo, width, cap, plans)
    ensures !ChunkTooLong(rows, bs, shards, size, chunks, c, roundTo, width, cap)
  {
    assert PlanFor(rows, bs, shards, size, chunks, c, roundTo, width, cap, plans[c]);
  }

  /** What the call promises once the sizes are accepted. */
  ghost predicate ShardsRight(rows: seq<Row>, bs: nat, shards: nat, size: nat, chunks: nat,
                              roundTo: int, width: nat, cap: int, result: Sharded)
    requires Divides(|rows|, bs, shards, size, chunks) && 0 < roundTo
  {
    match result
    case BadSizes => false
    case RowTooLong =>
      exists c :: 0 <= c < chunks && ChunkTooLong(rows, bs, shards, size, chunks, c, roundTo, width, cap)
    case Sharded(shardRows, plans, order) =>
      && (forall c :: 0 <= c < chunks ==> !ChunkTooLong(rows, bs, shards, size, chunks, c, roundTo, width, cap))
      && order == BatchOrder(Lengths(rows), bs, shards, chunks)
      && shardRows == AllShards(Rearranged(rows, bs, shards, size, chunks), shards, size, bs, chunks)
      && |plans| == chunks
      && PlansFor(rows, bs, shards, size, chunks, roundTo, width, cap, plans)
  }

  method ShardDynamically(rows: seq<Row>, bs: nat, shards: nat, roundTo: int, width: nat, cap: int)
    returns (result: Sharded)
    requires 0 < roundTo
    ensures result == BadSizes <==> !GoodSizes(|rows|, bs, shards)
    ensures GoodSizes(|rows|, bs, shards) ==>
              && Divides(|rows|, bs, shards, bs / shards, |rows| / bs)
              && ShardsRight(rows, bs, shards, bs / shards, |rows| / bs, roundTo, width, cap, result)
  {
    if bs == 0 || shards == 0 || |rows| % bs != 0 || bs % shards != 0 {
      return BadSizes;
    }
    GoodSizesDivide(|rows|, bs, shards);
    result := ShardChunks(rows, bs, shards, bs / shards, |rows| / bs, roundTo, width, cap);
  }

  method ShardChunks(rows: seq<Row>, bs: nat, shards: nat, size: nat, chunks: nat, roundTo: int, width: nat, cap: int)
    returns (result: Sharded)
    requires Divides(|rows|, bs, shards, size, chunks) && 0 < roundTo
    ensures ShardsRight(rows, bs, shards, size, chunks, roundTo, width, cap, result)
  {
    var order := ComputeOrder(Lengths(rows), bs, shards, chunks);
    OrderIsPermutation(Lengths(rows), bs, shards, chunks);
    var shardRows := BuildShards(Select(rows, order), shards, size, bs, chunks, false);
    var tooLong, plans := PlanChunks(rows, shardRows, bs, shards, size, chunks, roundTo, width, cap);
    if tooLong {
      return RowTooLong;
    }
    forall c | 0 <= c < chunks ensures !ChunkTooLong(rows, bs, shards, size, chunks, c, roundTo, width, cap) {
      PlannedFits(rows, bs, shards, size, chunks, roundTo, width, cap, plans, c);
    }
    result := Sharded(shardRows, plans, order);
  }

  // ---------------------------------------------------------------- what the plans achieve

  /** The microbatches planned for a chunk tile its positions, each within the token cap, their
      lengths never decrease, and no way at all of grouping the positions uses fewer of them. */
  lemma PlansAreOptimal(rows: seq<Row>, bs: nat, shards: nat, size: nat, chunks: nat, c: nat,
                        roundTo: int, width: nat, cap: int, plan: Microbatches.Plan, f: seq<nat>)
    requires Divides(|rows|, bs, shards, size, chunks) && c < chunks && 0 < roundTo && plan.Plan?
    requires Microbatches.IsPlan(ChunkPositions(rows, bs, shards, size, chunks, c, roundTo, width), cap, plan)
    requires Microbatches.IsGrouping(ChunkPositions(rows, bs, shards, size, chunks, c, roundTo, width), cap, f)
    ensures Microbatches.Tiles(plan.ivs, size)
    ensures NonDecreasing(plan.lengths)
    ensures |plan.ivs| <= |Microbatches.Used(f)|
  {
    var lens := ChunkPositions(rows, bs, shards, size, chunks, c, roundTo, width);
    assert shards * 0 == 0;
    Microbatches.PlanIsGreedy(lens, cap, plan);
    Microbatches.LengthsAscend(lens, cap, plan);
    Microbatches.GreedyBeatsEveryGrouping(lens, cap, plan.ivs, f);
  }

  /** The length planned for microbatch `j` of chunk `c`: the least multiple of `roundTo` not
      below the longest of its rows on any shard, or the tensor's width if that is less. */
  lemma PlannedLength(rows: seq<Row>, bs: nat, shards: nat, size: nat, chunks: nat, c: nat, roundTo: int, width: nat,
                      cap: int, plan: Microbatches.Plan, j: nat) returns (i: nat, p: nat, m: int)
    requires Divides(|rows|, bs, shards, size, chunks) && c < chunks && 0 < roundTo
    requires PlanFor(rows, bs, shards, size, chunks, c, roundTo, width, cap, plan) && j < |plan.ivs|
    ensures |plan.lengths| == |plan.ivs| && plan.ivs[j].start < plan.ivs[j].end <= size
    ensures LongestRow(Rearranged(rows, bs, shards, size, chunks), shards, size, bs, c, plan.ivs[j], i, p)
    ensures PadsTo(SubShard(Rearranged(rows, bs, shards, size, chunks), i, size, bs, c)[p].length, roundTo, m)
    ensures plan.lengths[j] == Min(m, width)
  {
    var data := Rearranged(rows, bs, shards, size, chunks);
    var lists := ChunkLengths(data, shards, size, bs, c);
    assert shards * 0 == 0;
    PositionsAscend(rows, bs, shards, size, chunks, c, roundTo, width);
    i, p, m := Microbatches.PlannedLengthMeans(lists, size, roundTo, width, cap, plan, j);
    LongestOfLists(data, shards, size, bs, c, plan.ivs[j], lists, i, p);
  }

  /** Row `p` of shard `i`'s part of chunk `c` is the longest of the interval on all shards. */
  ghost predicate LongestRow(data: seq<Row>, shards: nat, size: nat, bs: nat, c: nat, iv: Microbatches.Interval,
                             i: nat, p: nat)
  {
    && i < shards && iv.start <= p < iv.end && p < |SubShard(data, i, size, bs, c)|
    && forall i', p' :: 0 <= i' < shards && iv.start <= p' < iv.end && p' < |SubShard(data, i', size, bs, c)| ==>
         SubShard(data, i', size, bs, c)[p'].length <= SubShard(data, i, size, bs, c)[p].length
  }

  lemma LongestOfLists(data: seq<Row>, shards: nat, size: nat, bs: nat, c: nat, iv: Microbatches.Interval,
                       lists: seq<seq<nat>>, i: nat, p: nat)
    requires lists == ChunkLengths(data, shards, size, bs, c) && Microbatches.LongestIn(lists, iv.start, iv.end, i, p)
    ensures LongestRow(data, shards, size, bs, c, iv, i, p)
    ensures SubShard(data, i, size, bs, c)[p].length == lists[i][p]
  {
    forall i', p' | 0 <= i' < shards && iv.start <= p' < iv.end && p' < |SubShard(data, i', size, bs, c)|
      ensures SubShard(data, i', size, bs, c)[p'].length <= SubShard(data, i, size, bs, c)[p].length
    {
      assert lists[i'][p'] <= lists[i][p];
    }
  }

  lemma {:induction false} MaxInAtLeast(lens: seq<nat>, a: nat, b: nat, p: nat)
    requires a <= p < b <= |lens|
    ensures lens[p] <= Microbatches.MaxIn(lens, a, b)
  {
    if p < b - 1 { MaxInAtLeast(lens, a, b - 1, p); }
  }

  /** Iterating over the microbatches truncates every row to its microbatch's length; that
      length is legal for the tensor and never cuts into the row's real tokens. */
  lemma TruncationKeepsRows(lists: seq<seq<nat>>, size: nat, roundTo: int, width: nat, cap: int,
                            plan: Microbatches.Plan, j: nat, i: nat, p: nat)
    requires Microbatches.SameLength(lists, size) && 0 < roundTo && plan.Plan? && 0 < size
    requires Microbatches.IsPlan(Microbatches.PositionLengths(lists, size, roundTo, width), cap, plan)
    requires j < |plan.ivs| && plan.ivs[j].start <= p < plan.ivs[j].end && i < |lists|
    ensures p < size && j < |plan.lengths|
    ensures Min(lists[i][p], width) <= plan.lengths[j] <= width
  {
    var lens := Microbatches.PositionLengths(lists, size, roundTo, width);
    Microbatches.PlanIsGreedy(lens, cap, plan);
    var iv := plan.ivs[j];
    assert Microbatches.Fits(lens, iv, cap);
    assert lists[i] in lists;
    CeilIsNat(Microbatches.LongestAt(lists, p), roundTo);
    MaxInAtLeast(lens, iv.start, iv.end, p);
    MaxInAtMost(lens, iv.start, iv.end, width);
  }

  lemma {:induction false} MaxInAtMost(lens: seq<nat>, a: nat, b: nat, bound: nat)
    requires a <= b <= |lens| && forall p :: 0 <= p < |lens| ==> lens[p] <= bound
    ensures Microbatches.MaxIn(lens, a, b) <= bound
  {
    if a < b { MaxInAtMost(lens, a, b - 1, bound); }
  }
}
