/** Sharding with sequence packing (`shard_by_batch_size` with `sequence_packing_args`,
    `get_batch` and the packable-sequence iterator,
    nemo_rl/distributed/batched_data_dict.py). */
module PackedShards {
  import opened Lists
  import opened Sorting
  import opened Rows
  import opened Sharding
  import opened Microbatches
  import opened Packing

  /** Lengths rounded up to a multiple of the padding. */
  function PaddedLengths(rows: seq<Row>, pad: int): (r: seq<nat>)
    requires 0 < pad
    ensures |r| == |rows| && forall i :: 0 <= i < |r| ==> r[i] == RoundUp(rows[i].length, pad)
  {
    seq(|rows|, i requires 0 <= i < |rows| => RoundUp(rows[i].length, pad))
  }

  lemma PaddedLengthMeans(rows: seq<Row>, pad: int, i: nat)
    requires 0 < pad && i < |rows|
    ensures PadsTo(rows[i].length, pad, PaddedLengths(rows, pad)[i])
  {
    RoundUpPads(rows[i].length, pad);
  }

  function ShiftAll(bins: seq<seq<int>>, d: int): (r: seq<seq<int>>)
    ensures |r| == |bins| && forall i :: 0 <= i < |r| ==> r[i] == Shift(bins[i], d)
  {
    seq(|bins|, i requires 0 <= i < |bins| => Shift(bins[i], d))
  }

  predicate AllInRange(bins: seq<seq<int>>, n: nat) {
    forall b :: b in bins ==> InRange(b, n)
  }

  // ---------------------------------------------------------------- one chunk

  /** What one shard receives from one chunk. */
  datatype Part = Part(bins: seq<seq<int>>, intervals: seq<Interval>, lengths: seq<nat>)

  /** The bins laid end to end. */
  function Offsets(bins: seq<seq<int>>): (r: seq<Interval>)
    ensures |r| == |bins|
  {
    if bins == [] then []
    else
      var front := bins[..|bins| - 1];
      Offsets(front) + [Interval(|Flatten(front)|, |Flatten(bins)|)]
  }

  function TokenCounts(rows: seq<Row>, bins: seq<seq<int>>, pad: int): (r: seq<nat>)
    requires 0 < pad && AllInRange(bins, |rows|)
    ensures |r| == |bins|
  {
    if bins == [] then []
    else
      assert bins[|bins| - 1] in bins;
      TokenCounts(rows, bins[..|bins| - 1], pad) + [BinLoad(PaddedLengths(rows, pad), bins[|bins| - 1])]
  }

  /** The part's microbatches are its bins, end to end, with their padded token counts. */
  predicate PartOf(rows: seq<Row>, bins: seq<seq<int>>, pad: int, part: Part)
    requires 0 < pad && AllInRange(bins, |rows|)
  {
    part.bins == bins && part.intervals == Offsets(bins) && part.lengths == TokenCounts(rows, bins, pad)
  }

  lemma {:induction false} OffsetsAt(bins: seq<seq<int>>, j: nat)
    requires j < |bins|
    ensures Offsets(bins)[j] == Interval(|Flatten(bins[..j])|, |Flatten(bins[..j + 1])|)
  {
    var m := |bins| - 1;
    if j < m {
      OffsetsAt(bins[..m], j);
      assert bins[..m][..j] == bins[..j] && bins[..m][..j + 1] == bins[..j + 1];
    } else {
      assert bins[..j + 1] == bins;
    }
  }

  lemma {:induction false} TokenCountsAt(rows: seq<Row>, bins: seq<seq<int>>, pad: int, j: nat)
    requires 0 < pad && AllInRange(bins, |rows|) && j < |bins|
    ensures bins[j] in bins && TokenCounts(rows, bins, pad)[j] == BinLoad(PaddedLengths(rows, pad), bins[j])
  {
    var m := |bins| - 1;
    if j < m { TokenCountsAt(rows, bins[..m], pad, j); }
  }

  method TokensOf(rows: seq<Row>, bin: seq<int>, pad: int) returns (tokens: nat)
    requires 0 < pad && InRange(bin, |rows|)
    ensures tokens == BinLoad(PaddedLengths(rows, pad), bin)
  {
    tokens := 0;
    for i := 0 to |bin|
      invariant tokens == BinLoad(PaddedLengths(rows, pad), bin[..i])
    {
      assert bin[..i + 1][..i] == bin[..i];
      tokens := tokens + RoundUp(rows[bin[i]].length, pad);
    }
    assert bin[..|bin|] == bin;
  }

  lemma OffsetsSnoc(bins: seq<seq<int>>, bin: seq<int>)
    ensures Offsets(bins + [bin]) == Offsets(bins) + [Interval(|Flatten(bins)|, |Flatten(bins)| + |bin|)]
  {
    FlattenSnoc(bins, bin);
    assert (bins + [bin])[..|bins|] == bins;
  }

  lemma TokenCountsSnoc(rows: seq<Row>, bins: seq<seq<int>>, pad: int, bin: seq<int>)
    requires 0 < pad && AllInRange(bins, |rows|) && InRange(bin, |rows|)
    ensures AllInRange(bins + [bin], |rows|)
    ensures TokenCounts(rows, bins + [bin], pad)
         == TokenCounts(rows, bins, pad) + [BinLoad(PaddedLengths(rows, pad), bin)]
  {
    assert (bins + [bin])[..|bins|] == bins;
  }

  lemma LastEnd(bins: seq<seq<int>>)
    ensures |Flatten(bins)| == if bins == [] then 0 else Offsets(bins)[|bins| - 1].end
  {}

  /** One bin is appended to the part of its shard. */
  method AddBin(rows: seq<Row>, pad: int, part: Part, bin: seq<int>) returns (part': Part)
    requires 0 < pad && AllInRange(part.bins, |rows|) && InRange(bin, |rows|) && PartOf(rows, part.bins, pad, part)
    ensures AllInRange(part.bins + [bin], |rows|) && PartOf(rows, part.bins + [bin], pad, part')
  {
    OffsetsSnoc(part.bins, bin);
    TokenCountsSnoc(rows, part.bins, pad, bin);
    LastEnd(part.bins);
    var tokens := TokensOf(rows, bin, pad);
    var interval;
    if part.intervals == [] {
      interval := Interval(0, |bin|);
    } else {
      var prevEnd := part.intervals[|part.intervals| - 1].end;
      interval := Interval(prevEnd, prevEnd + |bin|);
    }
    part' := Part(part.bins + [bin], part.intervals + [interval], part.lengths + [tokens]);
  }

  /** The part holds every `shards`-th bin, starting with the `s`-th. */
  ghost predicate PartIs(rows: seq<Row>, bins: seq<seq<int>>, shards: nat, pad: int, s: nat, part: Part)
    requires 0 < pad && 0 < shards
  {
    AllInRange(Stride(bins, s, shards), |rows|) && PartOf(rows, Stride(bins, s, shards), pad, part)
  }

  ghost predicate PartsOf(rows: seq<Row>, bins: seq<seq<int>>, shards: nat, pad: int, parts: seq<Part>)
    requires 0 < pad && 0 < shards
  {
    |parts| == shards && forall s :: 0 <= s < shards ==> PartIs(rows, bins, shards, pad, s, parts[s])
  }

  /** Deals the bins of a chunk to the shards in turn. */
  method DealBins(rows: seq<Row>, bins: seq<seq<int>>, shards: nat, pad: int) returns (parts: seq<Part>)
    requires 0 < pad && 0 < shards && AllInRange(bins, |rows|)
    ensures PartsOf(rows, bins, shards, pad, parts)
  {
    parts := seq(shards, _ => Part([], [], []));
    for b := 0 to |bins|
      invariant PartsOf(rows, bins[..b], shards, pad, parts)
    {
      var s := b % shards;
      assert bins[b] in bins && PartIs(rows, bins[..b], shards, pad, s, parts[s]);
      var part := AddBin(rows, pad, parts[s], bins[b]);
      NextParts(rows, bins, shards, pad, parts, b, part);
      parts := parts[s := part];
    }
    assert bins[..|bins|] == bins;
  }

  lemma NextParts(rows: seq<Row>, bins: seq<seq<int>>, shards: nat, pad: int, parts: seq<Part>, b: nat, part: Part)
    requires 0 < pad && 0 < shards && b < |bins| && PartsOf(rows, bins[..b], shards, pad, parts)
    requires var s := b % shards;
             AllInRange(parts[s].bins + [bins[b]], |rows|) && PartOf(rows, parts[s].bins + [bins[b]], pad, part)
    ensures PartsOf(rows, bins[..b + 1], shards, pad, parts[b % shards := part])
  {
    var parts' := parts[b % shards := part];
    forall s | 0 <= s < shards ensures PartIs(rows, bins[..b + 1], shards, pad, s, parts'[s]) {
      assert PartIs(rows, bins[..b], shards, pad, s, parts[s]);
      NextPart(rows, bins, shards, pad, parts[s], b, part, s);
    }
  }

  /** Shard `s` after bin `b`: it has the bin exactly when it is its turn. */
  lemma NextPart(rows: seq<Row>, bins: seq<seq<int>>, shards: nat, pad: int, before: Part, b: nat, part: Part, s: nat)
    requires 0 < pad && s < shards && b < |bins| && PartIs(rows, bins[..b], shards, pad, s, before)
    requires s == b % shards ==>
               AllInRange(before.bins + [bins[b]], |rows|) && PartOf(rows, before.bins + [bins[b]], pad, part)
    ensures PartIs(rows, bins[..b + 1], shards, pad, s, if s == b % shards then part else before)
  {
    StrideOfPrefix(bins, s, shards, b);
    assert Stride(bins[..b + 1], s, shards) == before.bins + if s == b % shards then [bins[b]] else [];
  }

  lemma StrideOfPrefix(bins: seq<seq<int>>, s: nat, shards: nat, b: nat)
    requires s < shards && b < |bins|
    ensures Stride(bins[..b + 1], s, shards) == Stride(bins[..b], s, shards) + if s == b % shards then [bins[b]] else []
  {
    assert bins[..b + 1] == bins[..b] + [bins[b]];
    StrideGains(bins[..b], bins[b], s, shards);
    ResidueIsMod(b, shards);
  }

  // ---------------------------------------------------------------- all chunks

  /** chunk_idx * batch_size */
  function ChunkStart(c: nat, bs: nat): nat { if c == 0 then 0 else ChunkStart(c - 1, bs) + bs }

  lemma {:induction false} ChunkStartIs(c: nat, bs: nat)
    ensures ChunkStart(c, bs) == c * bs
  {
    if c > 0 { ChunkStartIs(c - 1, bs); }
  }

  lemma {:induction false} ChunkEnds(c: nat, chunks: nat, bs: nat)
    requires c < chunks
    ensures ChunkStart(c, bs) + bs <= ChunkStart(chunks, bs)
  {
    if c < chunks - 1 { ChunkEnds(c, chunks - 1, bs); }
  }

  /** Chunk `c`'s bins as indices into the whole batch. */
  function GlobalBins(allBins: seq<seq<seq<int>>>, bs: nat, c: nat): (r: seq<seq<int>>)
    requires c < |allBins|
    ensures |r| == |allBins[c]|
  {
    ShiftAll(allBins[c], ChunkStart(c, bs))
  }

  predicate BinsInRange(allBins: seq<seq<seq<int>>>, bs: nat, n: nat) {
    forall c :: 0 <= c < |allBins| ==> AllInRange(GlobalBins(allBins, bs, c), n)
  }

  /** Chunk `c`'s bins that go to shard `s`: every `shards`-th, starting with the `s`-th. */
  function ShardBins(allBins: seq<seq<seq<int>>>, bs: nat, shards: nat, s: nat, c: nat): seq<seq<int>>
    requires 0 < shards && c < |allBins|
  {
    Stride(GlobalBins(allBins, bs, c), s, shards)
  }

  /** Row indices of shard `s`, chunk by chunk. */
  function IndexBlocks(allBins: seq<seq<seq<int>>>, bs: nat, shards: nat, s: nat, chunks: nat): (r: seq<seq<int>>)
    requires 0 < shards && chunks <= |allBins|
    ensures |r| == chunks
    ensures forall c :: 0 <= c < chunks ==> r[c] == Flatten(ShardBins(allBins, bs, shards, s, c))
  {
    seq(chunks, c requires 0 <= c < chunks => Flatten(ShardBins(allBins, bs, shards, s, c)))
  }

  datatype PackedShard = PackedShard(
    rows: seq<Row>,
    indices: seq<int>,                 // global_indices_per_shard
    intervals: seq<seq<Interval>>,     // micro_batch_indices
    lengths: seq<seq<nat>>,            // micro_batch_lengths
    counts: seq<nat>)                  // elem_counts_per_gb

  /** The lists of chunk `c` describe these bins. */
  ghost predicate Describes(rows: seq<Row>, bins: seq<seq<int>>, pad: int, ivs: seq<Interval>, lens: seq<nat>,
                            count: nat)
    requires 0 < pad
  {
    && ivs == Offsets(bins) && count == |Flatten(bins)|
    && AllInRange(bins, |rows|) && lens == TokenCounts(rows, bins, pad)
  }

  ghost predicate ShardUpTo(rows: seq<Row>, allBins: seq<seq<seq<int>>>, bs: nat, shards: nat, pad: int,
                            s: nat, chunks: nat, sh: PackedShard)
    requires 0 < shards && 0 < pad && chunks <= |allBins|
  {
    && sh.indices == Flatten(IndexBlocks(allBins, bs, shards, s, chunks))
    && InRange(sh.indices, |rows|) && sh.rows == Select(rows, sh.indices)
    && |sh.intervals| == |sh.lengths| == |sh.counts| == chunks
    && forall c :: 0 <= c < chunks ==>
         Describes(rows, ShardBins(allBins, bs, shards, s, c), pad, sh.intervals[c], sh.lengths[c], sh.counts[c])
  }

  lemma {:induction false} FlattenInRange(bins: seq<seq<int>>, n: nat)
    requires AllInRange(bins, n)
    ensures InRange(Flatten(bins), n)
  {
    if bins != [] {
      assert bins[|bins| - 1] in bins;
      FlattenInRange(bins[..|bins| - 1], n);
    }
  }

  lemma SelectAppend<T>(s: seq<T>, p: seq<int>, q: seq<int>)
    requires InRange(p, |s|) && InRange(q, |s|)
    ensures InRange(p + q, |s|) && Select(s, p + q) == Select(s, p) + Select(s, q)
  {}

  lemma IndicesGrow(allBins: seq<seq<seq<int>>>, bs: nat, shards: nat, s: nat, c: nat)
    requires 0 < shards && c < |allBins|
    ensures Flatten(IndexBlocks(allBins, bs, shards, s, c + 1))
         == Flatten(IndexBlocks(allBins, bs, shards, s, c)) + Flatten(ShardBins(allBins, bs, shards, s, c))
  {
    assert IndexBlocks(allBins, bs, shards, s, c + 1)[..c] == IndexBlocks(allBins, bs, shards, s, c);
  }

  /** A shard takes its part of one more chunk. */
  function Extended(rows: seq<Row>, sh: PackedShard, part: Part): PackedShard
    requires InRange(Flatten(part.bins), |rows|) && part.intervals != []
  {
    var added := Flatten(part.bins);
    PackedShard(sh.rows + Select(rows, added), sh.indices + added, sh.intervals + [part.intervals],
                sh.lengths + [part.lengths], sh.counts + [part.intervals[|part.intervals| - 1].end])
  }

  lemma PartDescribes(rows: seq<Row>, bins: seq<seq<int>>, pad: int, part: Part)
    requires 0 < pad && AllInRange(bins, |rows|) && PartOf(rows, bins, pad, part) && part.intervals != []
    ensures InRange(Flatten(part.bins), |rows|)
    ensures Describes(rows, bins, pad, part.intervals, part.lengths, part.intervals[|part.intervals| - 1].end)
  {
    FlattenInRange(bins, |rows|);
    LastEnd(bins);
  }

  lemma ExtendedUpTo(rows: seq<Row>, allBins: seq<seq<seq<int>>>, bs: nat, shards: nat, pad: int, s: nat, c: nat,
                     sh: PackedShard, part: Part)
    requires 0 < shards && 0 < pad && c < |allBins| && ShardUpTo(rows, allBins, bs, shards, pad, s, c, sh)
    requires part.bins == ShardBins(allBins, bs, shards, s, c) && InRange(Flatten(part.bins), |rows|)
    requires part.intervals != []
    requires Describes(rows, part.bins, pad, part.intervals, part.lengths, part.intervals[|part.intervals| - 1].end)
    ensures ShardUpTo(rows, allBins, bs, shards, pad, s, c + 1, Extended(rows, sh, part))
  {
    IndicesGrow(allBins, bs, shards, s, c);
    SelectAppend(rows, sh.indices, Flatten(part.bins));
  }

  method AddPart(rows: seq<Row>, ghost allBins: seq<seq<seq<int>>>, ghost bs: nat, ghost shards: nat, ghost pad: int,
                 ghost s: nat, ghost c: nat, sh: PackedShard, part: Part) returns (sh': PackedShard)
    requires 0 < pad && c < |allBins| && s < shards <= |GlobalBins(allBins, bs, c)|
    requires ShardUpTo(rows, allBins, bs, shards, pad, s, c, sh)
    requires PartIs(rows, GlobalBins(allBins, bs, c), shards, pad, s, part)
    ensures ShardUpTo(rows, allBins, bs, shards, pad, s, c + 1, sh')
  {
    assert ShardBins(allBins, bs, shards, s, c) != [];
    PartDescribes(rows, ShardBins(allBins, bs, shards, s, c), pad, part);
    ExtendedUpTo(rows, allBins, bs, shards, pad, s, c, sh, part);
    sh' := Extended(rows, sh, part);
  }

  /** Every chunk has at least one bin for every shard. */
  predicate EnoughBins(allBins: seq<seq<seq<int>>>, shards: nat) {
    forall c :: 0 <= c < |allBins| ==> shards <= |allBins[c]|
  }

  ghost predicate AllUpTo(rows: seq<Row>, allBins: seq<seq<seq<int>>>, bs: nat, shards: nat, pad: int, chunks: nat,
                          result: seq<PackedShard>)
    requires 0 < shards && 0 < pad && chunks <= |allBins|
  {
    && |result| == shards
    && forall s :: 0 <= s < shards ==> ShardUpTo(rows, allBins, bs, shards, pad, s, chunks, result[s])
  }

  method AddChunk(rows: seq<Row>, allBins: seq<seq<seq<int>>>, bs: nat, shards: nat, pad: int, c: nat,
                  result: seq<PackedShard>) returns (result': seq<PackedShard>)
    requires 0 < shards && 0 < pad && c < |allBins| && BinsInRange(allBins, bs, |rows|) && EnoughBins(allBins, shards)
    requires AllUpTo(rows, allBins, bs, shards, pad, c, result)
    ensures AllUpTo(rows, allBins, bs, shards, pad, c + 1, result')
  {
    assert AllInRange(GlobalBins(allBins, bs, c), |rows|);
    var parts := DealBins(rows, GlobalBins(allBins, bs, c), shards, pad);
    result' := [];
    for s := 0 to shards
      invariant |result'| == s
      invariant forall i :: 0 <= i < s ==> ShardUpTo(rows, allBins, bs, shards, pad, i, c + 1, result'[i])
    {
      assert PartIs(rows, GlobalBins(allBins, bs, c), shards, pad, s, parts[s]);
      var sh := AddPart(rows, allBins, bs, shards, pad, s, c, result[s], parts[s]);
      result' := result' + [sh];
    }
  }

  function Orders(shards: seq<PackedShard>): (r: seq<seq<int>>)
    ensures |r| == |shards| && forall s :: 0 <= s < |r| ==> r[s] == shards[s].indices
  {
    seq(|shards|, s requires 0 <= s < |shards| => shards[s].indices)
  }

  method ConcatOrders(shards: seq<PackedShard>) returns (order: seq<int>)
    ensures order == Flatten(Orders(shards))
  {
    order := [];
    for s := 0 to |shards|
      invariant order == Flatten(Orders(shards)[..s])
    {
      assert Orders(shards)[..s + 1][..s] == Orders(shards)[..s];
      order := order + shards[s].indices;
    }
    assert Orders(shards)[..|shards|] == Orders(shards);
  }

  lemma NothingYet(rows: seq<Row>, allBins: seq<seq<seq<int>>>, bs: nat, shards: nat, pad: int, s: nat)
    requires 0 < shards && 0 < pad
    ensures ShardUpTo(rows, allBins, bs, shards, pad, s, 0, PackedShard([], [], [], [], []))
  {}

  /** The packing branch: `allBins[c]` are the packer's bins for chunk `c`. */
  method ShardPacked(rows: seq<Row>, allBins: seq<seq<seq<int>>>, bs: nat, shards: nat, pad: int)
    returns (result: seq<PackedShard>, order: seq<int>)
    requires 0 < shards && 0 < pad && BinsInRange(allBins, bs, |rows|) && EnoughBins(allBins, shards)
    ensures AllUpTo(rows, allBins, bs, shards, pad, |allBins|, result)
    ensures order == Flatten(Orders(result))
  {
    result := seq(shards, _ => PackedShard([], [], [], [], []));
    forall s | 0 <= s < shards ensures ShardUpTo(rows, allBins, bs, shards, pad, s, 0, result[s]) {
      NothingYet(rows, allBins, bs, shards, pad, s);
    }
    for c := 0 to |allBins|
      invariant AllUpTo(rows, allBins, bs, shards, pad, c, result)
    {
      result := AddChunk(rows, allBins, bs, shards, pad, c, result);
    }
    order := ConcatOrders(result);
  }

  /** Entry `i` of `m` pads the row that entry `i` of the bin names. */
  ghost predicate PadsBin(rows: seq<Row>, bin: seq<int>, pad: int, m: seq<int>)
    requires 0 < pad
  {
    |m| == |bin| && InRange(bin, |rows|) && forall i :: 0 <= i < |bin| ==> PadsTo(rows[bin[i]].length, pad, m[i])
  }

  /** Every microbatch length is the sum, over the rows of its bin, of the least multiples of
      the padding that are not below the rows' lengths. */
  lemma LengthIsSumOfMultiples(rows: seq<Row>, allBins: seq<seq<seq<int>>>, bs: nat, shards: nat, pad: int,
                               s: nat, sh: PackedShard, c: nat, j: nat) returns (m: seq<int>)
    requires 0 < shards && 0 < pad && ShardUpTo(rows, allBins, bs, shards, pad, s, |allBins|, sh)
    requires c < |allBins| && j < |ShardBins(allBins, bs, shards, s, c)|
    ensures |sh.lengths[c]| == |ShardBins(allBins, bs, shards, s, c)|
    ensures PadsBin(rows, ShardBins(allBins, bs, shards, s, c)[j], pad, m) && sh.lengths[c][j] == Sum(m)
  {
    var bins := ShardBins(allBins, bs, shards, s, c);
    assert Describes(rows, bins, pad, sh.intervals[c], sh.lengths[c], sh.counts[c]);
    TokenCountsAt(rows, bins, pad, j);
    m := LoadPads(rows, bins[j], pad);
  }

  lemma LoadPads(rows: seq<Row>, bin: seq<int>, pad: int) returns (m: seq<int>)
    requires 0 < pad && InRange(bin, |rows|)
    ensures PadsBin(rows, bin, pad, m) && BinLoad(PaddedLengths(rows, pad), bin) == Sum(m)
  {
    LoadIsSum(PaddedLengths(rows, pad), bin);
    m := Select(PaddedLengths(rows, pad), bin);
    forall i | 0 <= i < |bin| ensures PadsTo(rows[bin[i]].length, pad, m[i]) {
      PaddedLengthMeans(rows, pad, bin[i]);
    }
  }

  // ---------------------------------------------------------------- reading a shard back

  /** `get_batch(b)`, then the rows of its `j`-th microbatch. */
  function BatchStart(counts: seq<nat>, b: nat): nat
    requires b <= |counts|
  {
    if b == 0 then 0 else BatchStart(counts, b - 1) + counts[b - 1]
  }

  lemma BatchStartIsOffset(rows: seq<Row>, allBins: seq<seq<seq<int>>>, bs: nat, shards: nat, pad: int,
                           s: nat, chunks: nat, sh: PackedShard, b: nat)
    requires 0 < shards && 0 < pad && chunks <= |allBins|
    requires ShardUpTo(rows, allBins, bs, shards, pad, s, chunks, sh) && b <= chunks
    ensures BatchStart(sh.counts, b) == |Flatten(IndexBlocks(allBins, bs, shards, s, chunks)[..b])|
  {
    var blocks := IndexBlocks(allBins, bs, shards, s, chunks);
    forall c | 0 <= c < chunks ensures sh.counts[c] == |blocks[c]| {
      assert Describes(rows, ShardBins(allBins, bs, shards, s, c), pad, sh.intervals[c], sh.lengths[c], sh.counts[c]);
    }
    StartIsOffset(sh.counts, blocks, b);
  }

  lemma {:induction false} StartIsOffset(counts: seq<nat>, blocks: seq<seq<int>>, b: nat)
    requires b <= |counts| == |blocks| && forall i :: 0 <= i < |counts| ==> counts[i] == |blocks[i]|
    ensures BatchStart(counts, b) == |Flatten(blocks[..b])|
  {
    if b > 0 {
      StartIsOffset(counts, blocks, b - 1);
      BlockAtOffset(blocks, b - 1);
    }
  }

  lemma SelectSliced<T>(s: seq<T>, p: seq<int>, a: nat, b: nat)
    requires InRange(p, |s|)
    ensures InRange(Slice(p, a, b), |s|) && Slice(Select(s, p), a, b) == Select(s, Slice(p, a, b))
  {}

  /** Global batch `b` of shard `s` is what was dealt to it from chunk `b`. */
  lemma BatchRows(rows: seq<Row>, allBins: seq<seq<seq<int>>>, bs: nat, shards: nat, pad: int, s: nat,
                  sh: PackedShard, b: nat)
    requires 0 < shards && 0 < pad && ShardUpTo(rows, allBins, bs, shards, pad, s, |allBins|, sh) && b < |allBins|
    ensures InRange(Flatten(ShardBins(allBins, bs, shards, s, b)), |rows|)
    ensures Slice(sh.rows, BatchStart(sh.counts, b), BatchStart(sh.counts, b + 1))
         == Select(rows, Flatten(ShardBins(allBins, bs, shards, s, b)))
  {
    BatchStartIsOffset(rows, allBins, bs, shards, pad, s, |allBins|, sh, b);
    BatchStartIsOffset(rows, allBins, bs, shards, pad, s, |allBins|, sh, b + 1);
    BlockAtOffset(IndexBlocks(allBins, bs, shards, s, |allBins|), b);
    SelectSliced(rows, sh.indices, BatchStart(sh.counts, b), BatchStart(sh.counts, b + 1));
  }

  /** The j-th of bins laid end to end. */
  lemma BinRows(rows: seq<Row>, bins: seq<seq<int>>, j: nat)
    requires AllInRange(bins, |rows|) && InRange(Flatten(bins), |rows|) && j < |bins|
    ensures InRange(bins[j], |rows|)
    ensures Slice(Select(rows, Flatten(bins)), Offsets(bins)[j].start, Offsets(bins)[j].end) == Select(rows, bins[j])
  {
    OffsetsAt(bins, j);
    BlockAtOffset(bins, j);
    SelectSliced(rows, Flatten(bins), Offsets(bins)[j].start, Offsets(bins)[j].end);
    assert bins[j] in bins;
  }

  /** `get_batch(b)` on shard `s` followed by the packable-sequence iterator yields exactly
      the rows of the chunk's bins `s`, `s + shards`, `s + 2 * shards`, ... in this order. */
  lemma BatchIsItsBins(rows: seq<Row>, allBins: seq<seq<seq<int>>>, bs: nat, shards: nat, pad: int,
                       s: nat, sh: PackedShard, b: nat, j: nat)
    requires 0 < shards && 0 < pad
    requires ShardUpTo(rows, allBins, bs, shards, pad, s, |allBins|, sh) && b < |allBins|
    requires j < |ShardBins(allBins, bs, shards, s, b)|
    ensures |sh.intervals[b]| == |ShardBins(allBins, bs, shards, s, b)|
    ensures InRange(ShardBins(allBins, bs, shards, s, b)[j], |rows|)
    ensures var batch := Slice(sh.rows, BatchStart(sh.counts, b), BatchStart(sh.counts, b + 1));
            Slice(batch, sh.intervals[b][j].start, sh.intervals[b][j].end)
              == Select(rows, ShardBins(allBins, bs, shards, s, b)[j])
  {
    BatchRows(rows, allBins, bs, shards, pad, s, sh, b);
    assert Describes(rows, ShardBins(allBins, bs, shards, s, b), pad, sh.intervals[b], sh.lengths[b], sh.counts[b]);
    BinRows(rows, ShardBins(allBins, bs, shards, s, b), j);
  }
}
