/** From a shard made by sequence packing to the microbatches a worker trains on: `get_batch`
    and `make_microbatch_iterator_for_packable_sequences` one after the other
    (nemo_rl/distributed/batched_data_dict.py). */
module PackedIteration {
  import opened Lists
  import opened Sorting
  import opened Rows
  import opened Microbatches
  import opened PackedShards
  import opened BatchedData

  /** A shard as the sharding leaves it. */
  ghost predicate IsShard(d: BatchedDataDict, sh: PackedShard)
    reads d
  {
    && d.Valid() && d.rows == sh.rows && d.elemCountsPerGb == Some(sh.counts)
    && d.microBatchIndices == Some(sh.intervals) && d.microBatchLengths == Some(sh.lengths)
  }

  /** Global batch `b` lies within the shard. */
  lemma BatchFits(rows: seq<Row>, allBins: seq<seq<seq<int>>>, bs: nat, shards: nat, pad: int, s: nat,
                  sh: PackedShard, b: nat)
    requires 0 < shards && 0 < pad && ShardUpTo(rows, allBins, bs, shards, pad, s, |allBins|, sh) && b < |allBins|
    ensures BatchStart(sh.counts, b + 1) <= |sh.rows|
  {
    BatchStartIsOffset(rows, allBins, bs, shards, pad, s, |allBins|, sh, b + 1);
    BlockAtOffset(IndexBlocks(allBins, bs, shards, s, |allBins|), b);
  }

  /** The intervals of a chunk's bins lie within the rows of those bins. */
  lemma IntervalsFit(bins: seq<seq<int>>, j: nat)
    requires j < |bins|
    ensures Offsets(bins)[j].end <= |Flatten(bins)|
  {
    OffsetsAt(bins, j);
    BlockAtOffset(bins, j);
  }

  /** What `Describes` says of chunk `b`, with the chunk's bins named. */
  lemma ShardChunk(rows: seq<Row>, allBins: seq<seq<seq<int>>>, bs: nat, shards: nat, pad: int, s: nat, sh: PackedShard,
                   b: nat, bins: seq<seq<int>>)
    requires 0 < shards && 0 < pad && ShardUpTo(rows, allBins, bs, shards, pad, s, |allBins|, sh) && b < |allBins|
    requires bins == ShardBins(allBins, bs, shards, s, b)
    ensures sh.intervals[b] == Offsets(bins) && |sh.lengths[b]| == |bins| && AllInRange(bins, |rows|)
    ensures InRange(Flatten(bins), |rows|)
    ensures Slice(sh.rows, BatchStart(sh.counts, b), BatchStart(sh.counts, b + 1)) == Select(rows, Flatten(bins))
  {
    BatchRows(rows, allBins, bs, shards, pad, s, sh, b);
    assert Describes(rows, bins, pad, sh.intervals[b], sh.lengths[b], sh.counts[b]);
  }

  /** What a worker on shard `s` does with chunk `b`: take the global batch and iterate over
      it. It always succeeds and yields, in order, exactly the rows of the chunk's bins `s`,
      `s + shards`, `s + 2 * shards`, ... */
  method IterateChunk(d: BatchedDataDict, ghost rows: seq<Row>, ghost allBins: seq<seq<seq<int>>>, ghost bs: nat,
                      ghost shards: nat, ghost pad: int, ghost s: nat, ghost sh: PackedShard, b: nat)
    returns (ok: bool, mbs: seq<seq<Row>>)
    requires 0 < shards && 0 < pad && b < |allBins|
    requires ShardUpTo(rows, allBins, bs, shards, pad, s, |allBins|, sh) && IsShard(d, sh)
    ensures ok && |mbs| == |ShardBins(allBins, bs, shards, s, b)|
    ensures AllInRange(ShardBins(allBins, bs, shards, s, b), |rows|)
    ensures forall j :: 0 <= j < |mbs| ==> YieldsBin(rows, ShardBins(allBins, bs, shards, s, b)[j], mbs[j])
  {
    ghost var bins := ShardBins(allBins, bs, shards, s, b);
    ShardChunk(rows, allBins, bs, shards, pad, s, sh, b, bins);
    BatchFits(rows, allBins, bs, shards, pad, s, sh, b);
    var batch := d.GetBatch(b, None);
    assert batch != null;
    forall j | 0 <= j < |bins| ensures Offsets(bins)[j].end <= |batch.rows| {
      IntervalsFit(bins, j);
    }
    ok, mbs := batch.PackableMicrobatches();
    forall j | 0 <= j < |bins| ensures YieldsBin(rows, bins[j], mbs[j]) {
      BinRows(rows, bins, j);
    }
  }

  ghost predicate YieldsBin(rows: seq<Row>, bin: seq<int>, mb: seq<Row>) {
    InRange(bin, |rows|) && mb == Select(rows, bin)
  }
}
