/** Sharding for plain and dynamic batching, and its undoing
    (`shard_by_batch_size`, `reorder_data`, nemo_rl/distributed/batched_data_dict.py).
    A batch is a sequence of rows: every column is selected with the same indices. */
module Sharding {
  import opened Lists
  import opened Sorting

  function Shift(p: seq<int>, d: int): (r: seq<int>)
    ensures |r| == |p| && forall i :: 0 <= i < |r| ==> r[i] == p[i] + d
  {
    seq(|p|, i requires 0 <= i < |p| => p[i] + d)
  }

  /** Global indices of one chunk sorted by row length. */
  function SortedChunk(lens: seq<int>, bs: nat, c: nat): (r: seq<int>)
  {
    Shift(SortedRange(Slice(lens, c * bs, (c + 1) * bs)), c * bs)
  }

  function ChunkOrders(lens: seq<int>, bs: nat, shards: nat, chunks: nat): (r: seq<seq<int>>)
    requires 0 < shards
    ensures |r| == chunks
  {
    seq(chunks, (c: nat) => Flatten(Strides(SortedChunk(lens, bs, c), shards, shards)))
  }

  /** `batch_sorted_indices`: chunk by chunk, the sorted indices dealt out to the shards. */
  function BatchOrder(lens: seq<int>, bs: nat, shards: nat, chunks: nat): seq<int>
    requires 0 < shards
  {
    Flatten(ChunkOrders(lens, bs, shards, chunks))
  }

  method ComputeOrder(lens: seq<int>, bs: nat, shards: nat, chunks: nat) returns (order: seq<int>)
    requires 0 < shards
    ensures order == BatchOrder(lens, bs, shards, chunks)
  {
    order := [];
    for c := 0 to chunks
      invariant order == BatchOrder(lens, bs, shards, c)
    {
      var chunk := SortedRange(Slice(lens, c * bs, (c + 1) * bs));
      chunk := Shift(chunk, c * bs);
      chunk := Flatten(Strides(chunk, shards, shards));
      order := order + chunk;
      assert ChunkOrders(lens, bs, shards, c + 1)[..c] == ChunkOrders(lens, bs, shards, c);
    }
  }

  /** The part of chunk `c` that goes to shard `i`. */
  function SubShard<T>(data: seq<T>, i: nat, size: nat, bs: nat, c: nat): seq<T> {
    Slice(data, Start(i, size, bs, c), Start(i, size, bs, c) + size)
  }

  function Start(i: nat, size: nat, bs: nat, c: nat): nat { c * bs + i * size }

  function SubShards<T>(data: seq<T>, i: nat, size: nat, bs: nat, chunks: nat): (r: seq<seq<T>>)
    ensures |r| == chunks && forall c :: 0 <= c < chunks ==> r[c] == SubShard(data, i, size, bs, c)
  {
    seq(chunks, (c: nat) => SubShard(data, i, size, bs, c))
  }

  /** Rows of shard `i`: its part of every chunk, in chunk order. */
  function ShardOf<T>(data: seq<T>, i: nat, size: nat, bs: nat, chunks: nat): seq<T> {
    Flatten(SubShards(data, i, size, bs, chunks))
  }

  function AllShards<T>(data: seq<T>, shards: nat, size: nat, bs: nat, chunks: nat): (r: seq<seq<T>>)
    ensures |r| == shards && forall i :: 0 <= i < shards ==> r[i] == ShardOf(data, i, size, bs, chunks)
  {
    seq(shards, (i: nat) => ShardOf(data, i, size, bs, chunks))
  }

  function End(i: nat, size: nat, bs: nat, c: nat): nat { c * bs + (i + 1) * size }

  lemma EndIsStart(i: nat, size: nat, bs: nat, c: nat)
    ensures End(i, size, bs, c) == Start(i, size, bs, c) + size
  {}

  /** Cutting both ends to the data changes nothing. */
  lemma SliceCut<T>(data: seq<T>, a: nat, b: nat)
    requires a <= b
    ensures Min(a, |data|) >= 0 && Min(b, |data|) >= 0
    ensures Slice(data, Min(a, |data|), Min(b, |data|)) == Slice(data, a, b)
  {}

  /** Rows start, ..., end - 1 of one sub-shard; uneven shards are cut at the end of the data. */
  method TakeSubShard<T>(data: seq<T>, start: nat, end: nat, uneven: bool) returns (part: seq<T>)
    requires start <= end
    ensures part == Slice(data, start, end)
  {
    SliceCut(data, start, end);
    if uneven {
      part := Slice(data, Min(start, |data|), Min(end, |data|));
    } else {
      part := Slice(data, start, end);
    }
  }

  method BuildShard<T>(data: seq<T>, i: nat, size: nat, bs: nat, chunks: nat, uneven: bool) returns (shard: seq<T>)
    ensures shard == ShardOf(data, i, size, bs, chunks)
  {
    shard := [];
    for c := 0 to chunks
      invariant shard == ShardOf(data, i, size, bs, c)
    {
      EndIsStart(i, size, bs, c);
      var part := TakeSubShard(data, Start(i, size, bs, c), End(i, size, bs, c), uneven);
      shard := shard + part;
      assert SubShards(data, i, size, bs, c + 1)[..c] == SubShards(data, i, size, bs, c);
    }
  }

  method BuildShards<T>(data: seq<T>, shards: nat, size: nat, bs: nat, chunks: nat, uneven: bool)
    returns (result: seq<seq<T>>)
    ensures result == AllShards(data, shards, size, bs, chunks)
  {
    result := [];
    for i := 0 to shards
      invariant result == AllShards(data, i, size, bs, chunks)
    {
      var shard := BuildShard(data, i, size, bs, chunks, uneven);
      result := result + [shard];
    }
  }

  /** `reorder_data`: rows sorted by the given indices; `zip` stops at the shorter list. */
  function Reordered<T>(rows: seq<T>, order: seq<int>): seq<T> {
    Select(rows, SortedRange(Slice(order, 0, |rows|)))
  }

  // ---------------------------------------------------------------- the order is a permutation

  lemma SortedChunkIsChunk(lens: seq<int>, bs: nat, chunks: nat, c: nat)
    requires |lens| == chunks * bs && c < chunks
    ensures |SortedChunk(lens, bs, c)| == bs
    ensures multiset(SortedChunk(lens, bs, c)) == multiset(Iota(c * bs, bs))
    ensures forall i :: 0 <= i < bs ==> c * bs <= SortedChunk(lens, bs, c)[i] < (c + 1) * bs <= |lens|
  {
    BlockBounds(c, chunks, bs);
    var keys := Slice(lens, c * bs, (c + 1) * bs);
    var p := SortedRange(keys);
    SortedRangeIsStableSort(keys);
    assert InRange(p, |Iota(c * bs, bs)|);
    SelectMultiset(Iota(c * bs, bs), p, Iota(0, bs));
    assert Select(Iota(c * bs, bs), p) == Shift(p, c * bs);
    assert Select(Iota(c * bs, bs), Iota(0, bs)) == Iota(c * bs, bs);
  }

  lemma {:induction false} OrderMultiset(lens: seq<int>, bs: nat, shards: nat, chunks: nat, c: nat)
    requires 0 < shards && |lens| == chunks * bs && c <= chunks
    ensures multiset(BatchOrder(lens, bs, shards, c)) == multiset(Iota(0, c * bs))
  {
    if c == 0 {
      assert Iota(0, 0) == [];
    } else {
      OrderMultiset(lens, bs, shards, chunks, c - 1);
      OrderMultisetStep(lens, bs, shards, chunks, c - 1);
    }
  }

  lemma OrderMultisetStep(lens: seq<int>, bs: nat, shards: nat, chunks: nat, c: nat)
    requires 0 < shards && |lens| == chunks * bs && c < chunks
    requires multiset(BatchOrder(lens, bs, shards, c)) == multiset(Iota(0, c * bs))
    ensures multiset(BatchOrder(lens, bs, shards, c + 1)) == multiset(Iota(0, (c + 1) * bs))
  {
    OrderSnoc(lens, bs, shards, c);
    SortedChunkIsChunk(lens, bs, chunks, c);
    StridesKeepAll(SortedChunk(lens, bs, c), shards);
    IotaBlocks(c, bs);
  }

  lemma OrderSnoc(lens: seq<int>, bs: nat, shards: nat, c: nat)
    requires 0 < shards
    ensures BatchOrder(lens, bs, shards, c + 1)
         == BatchOrder(lens, bs, shards, c) + Flatten(Strides(SortedChunk(lens, bs, c), shards, shards))
  {
    assert ChunkOrders(lens, bs, shards, c + 1)[..c] == ChunkOrders(lens, bs, shards, c);
  }

  lemma IotaBlocks(c: nat, bs: nat)
    ensures multiset(Iota(0, (c + 1) * bs)) == multiset(Iota(0, c * bs)) + multiset(Iota(c * bs, bs))
  {
    assert (c + 1) * bs == c * bs + bs;
    assert Iota(0, (c + 1) * bs) == Iota(0, c * bs) + Iota(c * bs, bs);
  }

  /** The returned indices are a permutation of the whole batch. */
  lemma OrderIsPermutation(lens: seq<int>, bs: nat, shards: nat, chunks: nat)
    requires 0 < shards && |lens| == chunks * bs
    ensures IsPermutation(BatchOrder(lens, bs, shards, chunks), |lens|)
    ensures |BatchOrder(lens, bs, shards, chunks)| == |lens|
    ensures InRange(BatchOrder(lens, bs, shards, chunks), |lens|)
  {
    OrderMultiset(lens, bs, shards, chunks, chunks);
    PermutationRange(BatchOrder(lens, bs, shards, chunks), |lens|);
  }

  // ---------------------------------------------------------------- undoing a permutation

  /** `reorder_data` undoes selection by any permutation of the indices. */
  lemma ReorderUndoesSelect<T>(rows: seq<T>, order: seq<int>)
    requires IsPermutation(order, |rows|)
    ensures InRange(order, |rows|)
    ensures Reordered(Select(rows, order), order) == rows
  {
    PermutationRange(order, |rows|);
    SortInvertsPermutation(order, |rows|);
    assert Slice(order, 0, |rows|) == order;
  }

  /** Reordering loses nothing: different rows stay different. */
  lemma ReorderInjective<T>(x: seq<T>, y: seq<T>, order: seq<int>)
    requires |x| == |y| == |order| && Reordered(x, order) == Reordered(y, order)
    ensures x == y
  {
    var inv := SortedRange(order);
    assert Slice(order, 0, |x|) == order;
    SortedRangeIsStableSort(order);
    forall p | 0 <= p < |x| ensures x[p] == y[p] {
      assert Iota(0, |x|)[p] == p;
      assert p in multiset(inv);
      var j :| 0 <= j < |inv| && inv[j] == p;
      assert Select(x, inv)[j] == Select(y, inv)[j];
    }
  }

  // ---------------------------------------------------------------- plain sharding

  lemma {:induction false} OneChunkPrefix<T>(data: seq<T>, shards: nat, size: nat)
    ensures Flatten(AllShards(data, shards, size, |data|, 1)) == Slice(data, 0, shards * size)
  {
    if shards > 0 {
      var i := shards - 1;
      OneChunkPrefix(data, i, size);
      assert AllShards(data, shards, size, |data|, 1)[..i] == AllShards(data, i, size, |data|, 1);
      OneChunkShard(data, i, size);
      assert shards * size == i * size + size;
      assert i * size >= 0;
      SliceSlice(data, i * size, shards * size);
    } else {
      assert AllShards(data, 0, size, |data|, 1) == [];
    }
  }

  lemma OneChunkShard<T>(data: seq<T>, i: nat, size: nat)
    ensures ShardOf(data, i, size, |data|, 1) == Slice(data, i * size, (i + 1) * size)
  {
    var subs := SubShards(data, i, size, |data|, 1);
    assert subs[..0] == [];
    assert 0 * |data| == 0 && (i + 1) * size == i * size + size;
    assert subs[0] == Slice(data, i * size, (i + 1) * size);
    assert Flatten(subs) == Flatten(subs[..0]) + subs[0] == subs[0];
  }

  lemma SliceSlice<T>(data: seq<T>, a: nat, b: nat)
    requires a <= b
    ensures Slice(data, 0, a) + Slice(data, a, b) == Slice(data, 0, b)
  {}

  /** Without chunking, the shards in order are the batch, also when the last ones are
      smaller because the size does not divide evenly. */
  lemma OneChunkConcatenates<T>(data: seq<T>, shards: nat, size: nat)
    requires |data| <= shards * size
    ensures Flatten(AllShards(data, shards, size, |data|, 1)) == data
  {
    OneChunkPrefix(data, shards, size);
  }

  /** The sharding size rounded up (`allow_uneven_shards`) always covers the batch. */
  lemma UnevenCovers(total: nat, shards: nat)
    requires 0 < shards
    ensures total <= shards * ((total + shards - 1) / shards)
  {
    var q := (total + shards - 1) / shards;
    assert total + shards - 1 == shards * q + (total + shards - 1) % shards;
  }
}
