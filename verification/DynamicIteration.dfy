/** From sharding with dynamic batching to the microbatches a worker trains on:
    `shard_by_batch_size`, `get_batch` and `make_microbatch_iterator_with_dynamic_shapes`
    one after the other (nemo_rl/distributed/batched_data_dict.py). */
module DynamicIteration {
  import opened Lists
  import opened Rows
  import opened Sharding
  import opened Microbatches
  import opened DynamicBatching
  import opened BatchedData

  predicate ArePlans(plans: seq<Plan>) { forall c :: 0 <= c < |plans| ==> plans[c].Plan? }

  /** `micro_batch_indices` and `micro_batch_lengths` of every shard. */
  function AllIntervals(plans: seq<Plan>): (r: seq<seq<Interval>>)
    requires ArePlans(plans)
    ensures |r| == |plans| && forall c :: 0 <= c < |r| ==> r[c] == plans[c].ivs
  {
    seq(|plans|, c requires 0 <= c < |plans| => plans[c].ivs)
  }

  function AllLengths(plans: seq<Plan>): (r: seq<seq<nat>>)
    requires ArePlans(plans)
    ensures |r| == |plans| && forall c :: 0 <= c < |r| ==> r[c] == plans[c].lengths
  {
    seq(|plans|, c requires 0 <= c < |plans| => plans[c].lengths)
  }

  /** A microbatch whose rows are all `len` wide stays within the token cap, and `len` cuts
      into none of the rows' real tokens. */
  ghost predicate Serves(batch: seq<Row>, iv: Interval, len: nat, width: nat, cap: int) {
    && iv.start < iv.end <= |batch| && len <= width && (iv.end - iv.start) * len <= cap
    && forall p :: iv.start <= p < iv.end ==> Min(batch[p].length, width) <= len
  }

  /** The plan made for a chunk serves the rows that any shard holds of it. */
  lemma PlanServes(lists: seq<seq<nat>>, size: nat, roundTo: int, width: nat, cap: int, plan: Plan,
                   i: nat, batch: seq<Row>)
    requires SameLength(lists, size) && 0 < roundTo && plan.Plan? && 0 < size == |batch|
    requires IsPlan(PositionLengths(lists, size, roundTo, width), cap, plan)
    requires i < |lists| && lists[i] == Lengths(batch)
    ensures Tiles(plan.ivs, size) && |plan.lengths| == |plan.ivs|
    ensures forall j :: 0 <= j < |plan.ivs| ==> Serves(batch, plan.ivs[j], plan.lengths[j], width, cap)
  {
    var lens := PositionLengths(lists, size, roundTo, width);
    forall j | 0 <= j < |plan.ivs| ensures Serves(batch, plan.ivs[j], plan.lengths[j], width, cap) {
      var iv := plan.ivs[j];
      assert Fits(lens, iv, cap) && plan.lengths[j] == MaxIn(lens, iv.start, iv.end);
      TruncationKeepsRows(lists, size, roundTo, width, cap, plan, j, i, iv.start);
      forall p | iv.start <= p < iv.end ensures Min(batch[p].length, width) <= plan.lengths[j] {
        TruncationKeepsRows(lists, size, roundTo, width, cap, plan, j, i, p);
      }
    }
  }

  /** What the iterator yields for an interval and its length. */
  ghost predicate IsCut(batch: seq<Row>, width: nat, iv: Interval, len: nat, mb: seq<Row>) {
    var sliced := Slice(batch, iv.start, iv.end);
    AllOfWidth(sliced, width) && len <= width && mb == Narrowed(sliced, len)
  }

  lemma SlicesKeepRows(batch: seq<Row>, width: nat, iv: Interval, len: nat, cap: int, mb: seq<Row>)
    requires Serves(batch, iv, len, width, cap) && IsCut(batch, width, iv, len, mb)
    ensures AllOfWidth(mb, len) && |mb| * len <= cap && KeepsRows(mb, Slice(batch, iv.start, iv.end))
  {
    var sliced := Slice(batch, iv.start, iv.end);
    forall p | 0 <= p < |sliced| ensures Min(sliced[p].length, width) <= len {
      assert sliced[p] == batch[iv.start + p];
    }
    NarrowedKeepsRows(sliced, width, len);
  }

  lemma PiecesAreBatch(batch: seq<Row>, ivs: seq<Interval>)
    requires Tiles(ivs, |batch|)
    ensures Flatten(Pieces(batch, ivs)) == batch
  {
    TilesCoverRows(batch, ivs, |batch|);
    assert batch[..|batch|] == batch;
  }

  /** The microbatches of a served batch hand out every row once, with all its tokens. */
  lemma ServedBatch(batch: seq<Row>, width: nat, cap: int, plan: Plan, mbs: seq<seq<Row>>)
    requires plan.Plan? && |plan.lengths| == |plan.ivs| == |mbs| && Tiles(plan.ivs, |batch|)
    requires forall j :: 0 <= j < |plan.ivs| ==> Serves(batch, plan.ivs[j], plan.lengths[j], width, cap)
    requires forall j :: 0 <= j < |mbs| ==> IsCut(batch, width, plan.ivs[j], plan.lengths[j], mbs[j])
    ensures KeepsRows(Flatten(mbs), batch)
    ensures forall j :: 0 <= j < |mbs| ==> AllOfWidth(mbs[j], plan.lengths[j]) && |mbs[j]| * plan.lengths[j] <= cap
  {
    forall j | 0 <= j < |mbs|
      ensures AllOfWidth(mbs[j], plan.lengths[j]) && |mbs[j]| * plan.lengths[j] <= cap
      ensures KeepsRows(mbs[j], Pieces(batch, plan.ivs)[j])
    {
      SlicesKeepRows(batch, width, plan.ivs[j], plan.lengths[j], cap, mbs[j]);
    }
    FlattenKeepsRows(mbs, Pieces(batch, plan.ivs));
    PiecesAreBatch(batch, plan.ivs);
  }

  /** A shard as the sharding leaves it. */
  ghost predicate IsShard(d: BatchedDataDict, rows: seq<Row>, width: nat, plans: seq<Plan>)
    requires ArePlans(plans)
    reads d
  {
    && d.Valid() && d.rows == rows && d.width == width && d.elemCountsPerGb == None
    && d.microBatchIndices == Some(AllIntervals(plans)) && d.microBatchLengths == Some(AllLengths(plans))
  }

  ghost predicate ServedBy(batch: seq<Row>, size: nat, width: nat, cap: int, plan: Plan) {
    && |batch| == size && plan.Plan? && Tiles(plan.ivs, size) && |plan.lengths| == |plan.ivs|
    && forall j :: 0 <= j < |plan.ivs| ==> Serves(batch, plan.ivs[j], plan.lengths[j], width, cap)
  }

  /** Global batch `c` of shard `i` is what was dealt to the shard from chunk `c`. */
  lemma ChunkRows(rows: seq<Row>, bs: nat, shards: nat, size: nat, chunks: nat, shard: seq<Row>, i: nat, c: nat)
    requires Divides(|rows|, bs, shards, size, chunks) && i < shards && c < chunks
    requires shard == ShardOf(Rearranged(rows, bs, shards, size, chunks), i, size, bs, chunks)
    ensures (c + 1) * size <= |shard| && 0 < size
    ensures Slice(shard, c * size, (c + 1) * size)
         == SubShard(Rearranged(rows, bs, shards, size, chunks), i, size, bs, c)
    ensures |SubShard(Rearranged(rows, bs, shards, size, chunks), i, size, bs, c)| == size
  {
    var data := Rearranged(rows, bs, shards, size, chunks);
    SizePositive(bs, shards, size);
    ShardsAreBlocks(data, size, bs, shards, chunks, i);
    SubShardLength(data, i, size, bs, shards, chunks, c);
    ChunkOfShard(data, size, bs, shards, chunks, i, c);
    EndOfChunk(size, chunks, c, |shard|);
  }

  lemma EndOfChunk(size: nat, chunks: nat, c: nat, total: nat)
    requires total == chunks * size && c < chunks
    ensures (c + 1) * size <= total
  {
    BlockBounds(c, chunks, size);
  }

  lemma SizePositive(bs: nat, shards: nat, size: nat)
    requires 0 < bs == shards * size
    ensures 0 < size
  {
    assert shards * 0 == 0;
  }

  /** The plan of a chunk serves what any shard holds of it. */
  lemma ChunkIsServed(rows: seq<Row>, bs: nat, shards: nat, size: nat, chunks: nat, roundTo: int, width: nat, cap: int,
                      plan: Plan, i: nat, c: nat, batch: seq<Row>)
    requires Divides(|rows|, bs, shards, size, chunks) && 0 < roundTo && i < shards && c < chunks && 0 < size == |batch|
    requires batch == SubShard(Rearranged(rows, bs, shards, size, chunks), i, size, bs, c)
    requires PlanFor(rows, bs, shards, size, chunks, c, roundTo, width, cap, plan)
    ensures ServedBy(batch, size, width, cap, plan)
  {
    PositionsAscend(rows, bs, shards, size, chunks, c, roundTo, width);
    PlanServes(ChunkLengths(Rearranged(rows, bs, shards, size, chunks), shards, size, bs, c), size, roundTo, width, cap,
               plan, i, batch);
  }

  /** What a worker does with chunk `c`: take the global batch and iterate over it. It always
      succeeds, yields one microbatch per planned interval and within the cap, and hands out
      every row dealt to the shard from that chunk once, in order, with all its real tokens. */
  method IterateChunk(d: BatchedDataDict, ghost rows: seq<Row>, ghost bs: nat, ghost shards: nat, size: nat,
                      ghost chunks: nat, ghost roundTo: int, ghost width: nat, ghost cap: int, ghost result: Sharded,
                      ghost i: nat, c: nat) returns (ok: bool, mbs: seq<seq<Row>>)
    requires Divides(|rows|, bs, shards, size, chunks) && 0 < roundTo && i < shards && c < chunks
    requires result.Sharded? && ShardsRight(rows, bs, shards, size, chunks, roundTo, width, cap, result)
    requires |result.shards| == shards && ArePlans(result.plans) && IsShard(d, result.shards[i], width, result.plans)
    ensures ok && |result.plans| == chunks && |mbs| == |result.plans[c].ivs| == |result.plans[c].lengths|
    ensures KeepsRows(Flatten(mbs), SubShard(Rearranged(rows, bs, shards, size, chunks), i, size, bs, c))
    ensures forall j :: 0 <= j < |mbs| ==>
              AllOfWidth(mbs[j], result.plans[c].lengths[j]) && |mbs[j]| * result.plans[c].lengths[j] <= cap
  {
    ghost var plan := result.plans[c];
    ghost var dealt := SubShard(Rearranged(rows, bs, shards, size, chunks), i, size, bs, c);
    ChunkRows(rows, bs, shards, size, chunks, d.rows, i, c);
    assert PlanFor(rows, bs, shards, size, chunks, c, roundTo, width, cap, plan);
    ChunkIsServed(rows, bs, shards, size, chunks, roundTo, width, cap, plan, i, c, dealt);
    var batch := d.GetBatch(c, Some(size));
    BatchOfChunk(size, c);
    assert batch != null;
    ok, mbs := batch.DynamicMicrobatches();
    ServedBatch(batch.rows, width, cap, plan, mbs);
  }

  lemma BatchOfChunk(size: nat, c: nat)
    ensures size * c == c * size && size * (c + 1) == (c + 1) * size
  {}
}
