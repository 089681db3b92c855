/** Context parallelism: zigzag sharding of a sequence over ranks, the gather that undoes it
    and the gather's gradient (`_get_tokens_on_this_cp_rank`, `AllGatherCPTensor`,
    nemo_rl/distributed/model_utils.py). Ranks are indices of a sequence; a collective is a
    function of what all ranks hold. */
module ContextParallel {
  import opened Lists
  import opened Sorting
  import opened Reals

  /** Block `j` of a sequence cut into blocks of `size`. */
  function Block<T>(s: seq<T>, j: nat, size: nat): seq<T> {
    Slice(s, j * size, (j + 1) * size)
  }

  function ShardSize(n: nat, cp: nat): nat
    requires 0 < cp
  {
    QuotientIsNat(cp * 2, n / (cp * 2), n % (cp * 2));
    n / (cp * 2)
  }

  lemma QuotientIsNat(k: int, q: int, r: int)
    requires 0 < k && 0 <= k * q + r && r < k
    ensures 0 <= q
  {
    assert q <= -1 ==> k * q <= -k;
  }

  /** What rank `rank` of `cp` holds: one block from the front, its mirror from the back. */
  function TokensOf<T>(s: seq<T>, rank: nat, cp: nat): seq<T>
    requires rank < cp
  {
    if cp == 1 then s
    else Block(s, rank, ShardSize(|s|, cp)) + Block(s, cp * 2 - rank - 1, ShardSize(|s|, cp))
  }

  method TokensOnThisRank<T>(ids: seq<T>, rank: nat, cp: nat) returns (r: seq<T>)
    requires rank < cp
    ensures r == TokensOf(ids, rank, cp)
  {
    if cp == 1 {
      return ids;
    }
    var size := ShardSize(|ids|, cp);
    var inds: seq<nat> := [rank, cp * 2 - rank - 1];
    var chunks: seq<seq<T>> := [];
    for i := 0 to |inds|
      invariant |chunks| == i && forall k :: 0 <= k < i ==> chunks[k] == Block(ids, inds[k], size)
    {
      chunks := chunks + [Block(ids, inds[i], size)];
    }
    r := chunks[0] + chunks[1];
  }

  /** Entry by entry, for any length: the sequence is cut into 2 * cp blocks of equal size, as
      long as they can be, and what is left over at the end no rank holds. */
  lemma TokensAt<T>(s: seq<T>, rank: nat, cp: nat, size: nat, j: nat)
    requires rank < cp && 2 * cp * size <= |s| < 2 * cp * (size + 1) && j < 2 * size
    ensures cp == 1 ==> TokensOf(s, rank, cp) == s
    ensures cp > 1 ==> |TokensOf(s, rank, cp)| == 2 * size
    ensures GlobalPosition(cp, size, rank, j) < |s|
    ensures j < |TokensOf(s, rank, cp)| && TokensOf(s, rank, cp)[j] == s[GlobalPosition(cp, size, rank, j)]
  {
    PositionInRange(cp, size, rank, j);
    if cp == 1 {
      OnlyRankPosition(size, j);
    } else {
      SizeIs(|s|, cp, size);
      TwoBlocks(s, rank, cp, size);
      EitherBlock(s, rank, 2 * cp - rank - 1, size, 2 * cp, j, GlobalPosition(cp, size, rank, j));
    }
  }

  lemma OnlyRankPosition(size: nat, j: nat)
    ensures GlobalPosition(1, size, 0, j) == j
  {}

  lemma TwoBlocks<T>(s: seq<T>, rank: nat, cp: nat, size: nat)
    requires rank < cp && 1 < cp && size == ShardSize(|s|, cp)
    ensures TokensOf(s, rank, cp) == Block(s, rank, size) + Block(s, cp * 2 - rank - 1, size)
  {}

  lemma EitherBlock<T>(s: seq<T>, a: nat, b: nat, size: nat, blocks: nat, j: nat, at: nat)
    requires a < blocks && b < blocks && blocks * size <= |s| && j < 2 * size && at < |s|
    requires at == if j < size then a * size + j else b * size + (j - size)
    ensures |Block(s, a, size)| == |Block(s, b, size)| == size && (Block(s, a, size) + Block(s, b, size))[j] == s[at]
  {
    BlockAt(s, a, size, blocks);
    BlockAt(s, b, size, blocks);
  }

  lemma SizeIs(n: nat, cp: nat, size: nat)
    requires 0 < cp && 2 * cp * size <= n < 2 * cp * (size + 1)
    ensures ShardSize(n, cp) == size
  {
    var k := cp * 2;
    assert n == k * (n / k) + n % k;
    assert k * (size + 1) == k * size + k;
    SameQuotient(k, n / k, n % k, size, n - k * size);
  }

  lemma BlockAt<T>(s: seq<T>, b: nat, size: nat, blocks: nat)
    requires b < blocks && blocks * size <= |s|
    ensures b * size + size <= |s| && |Block(s, b, size)| == size
    ensures forall i :: 0 <= i < size ==> Block(s, b, size)[i] == s[b * size + i]
  {
    BlockBounds(b, blocks, size);
    assert (b + 1) * size == b * size + size;
  }

  /** torch.chunk(x, 2): the first half rounded up, and the rest if there is any; an empty
      tensor gives two empty chunks. */
  function Halves<T>(x: seq<T>): seq<seq<T>> {
    if |x| == 1 then [x] else [x[..(|x| + 1) / 2], x[(|x| + 1) / 2..]]
  }

  /** The chunk number of every half, in the order the ranks deliver them. */
  function ZigzagIndices(cp: nat, n: nat): (r: seq<int>)
    requires n <= cp
    ensures |r| == 2 * n
  {
    if n == 0 then [] else ZigzagIndices(cp, n - 1) + [n - 1, 2 * cp - n]
  }

  function AllHalves<T>(ranks: seq<seq<T>>): seq<seq<T>> {
    if ranks == [] then [] else AllHalves(ranks[..|ranks| - 1]) + Halves(ranks[|ranks| - 1])
  }

  /** `zip` stops at the shorter list; the pairs are sorted by chunk number. */
  function InChunkOrder<T>(chunks: seq<seq<T>>, indices: seq<int>): seq<seq<T>> {
    var n := Min(|chunks|, |indices|);
    Select(chunks[..n], SortedRange(indices[..n]))
  }

  function Gathered<T>(ranks: seq<seq<T>>): seq<T> {
    Flatten(InChunkOrder(AllHalves(ranks), ZigzagIndices(|ranks|, |ranks|)))
  }

  method AllGather<T>(ranks: seq<seq<T>>) returns (full: seq<T>)
    ensures full == Gathered(ranks)
  {
    var chunks: seq<seq<T>>, indices: seq<int> := [], [];
    for r := 0 to |ranks|
      invariant chunks == AllHalves(ranks[..r]) && indices == ZigzagIndices(|ranks|, r)
    {
      assert ranks[..r + 1][..r] == ranks[..r];
      chunks := chunks + Halves(ranks[r]);
      indices := indices + [r, 2 * |ranks| - (r + 1)];
    }
    assert ranks[..|ranks|] == ranks;
    full := Flatten(InChunkOrder(chunks, indices));
  }

  // ---------------------------------------------------------------- the chunk numbers

  lemma {:induction false} ZigzagAt(cp: nat, n: nat, k: nat)
    requires k < n <= cp
    ensures ZigzagIndices(cp, n)[2 * k] == k && ZigzagIndices(cp, n)[2 * k + 1] == 2 * cp - k - 1
  {
    if k < n - 1 { ZigzagAt(cp, n - 1, k); }
  }

  /** The first `n` chunk numbers and the last `n` of 2 * cp. */
  function Fronts(n: nat): seq<int> { if n == 0 then [] else Fronts(n - 1) + [n - 1] }

  function Backs(cp: nat, n: nat): seq<int> { if n == 0 then [] else [2 * cp - n] + Backs(cp, n - 1) }

  ghost predicate Covers(z: seq<int>, a: seq<int>, b: seq<int>) { multiset(z) == multiset(a) + multiset(b) }

  ghost predicate Extend(z: seq<int>, a: seq<int>, b: seq<int>, x: int, y: int, z': seq<int>, a': seq<int>,
                         b': seq<int>) {
    z' == z + [x, y] && a' == a + [x] && b' == [y] + b
  }

  lemma NextRank(cp: nat, n: nat)
    requires 0 < n <= cp
    ensures Extend(ZigzagIndices(cp, n - 1), Fronts(n - 1), Backs(cp, n - 1), n - 1, 2 * cp - n,
                   ZigzagIndices(cp, n), Fronts(n), Backs(cp, n))
  {}

  lemma {:induction false} ZigzagCounts(cp: nat, n: nat, z: seq<int>, a: seq<int>, b: seq<int>)
    requires n <= cp && z == ZigzagIndices(cp, n) && a == Fronts(n) && b == Backs(cp, n)
    ensures Covers(z, a, b)
  {
    if n == 0 {
      NothingCovers(z, a, b);
    } else {
      var z', a', b' := ZigzagIndices(cp, n - 1), Fronts(n - 1), Backs(cp, n - 1);
      ZigzagCounts(cp, n - 1, z', a', b');
      NextRank(cp, n);
      TwoMore(z', a', b', n - 1, 2 * cp - n, z, a, b);
    }
  }

  lemma NothingCovers(z: seq<int>, a: seq<int>, b: seq<int>)
    requires z == a == b == []
    ensures Covers(z, a, b)
  {}

  lemma TwoMore(z: seq<int>, a: seq<int>, b: seq<int>, x: int, y: int, z': seq<int>, a': seq<int>, b': seq<int>)
    requires Covers(z, a, b) && Extend(z, a, b, x, y, z', a', b')
    ensures Covers(z', a', b')
  {}

  lemma OneLonger(lo: int, n: nat)
    ensures Iota(lo, n + 1) == Iota(lo, n) + [lo + n] == [lo] + Iota(lo + 1, n)
  {}

  lemma {:induction false} FrontsAndBacks(cp: nat, n: nat)
    ensures Fronts(n) == Iota(0, n) && Backs(cp, n) == Iota(2 * cp - n, n)
  {
    if n > 0 {
      FrontsAndBacks(cp, n - 1);
      OneLonger(0, n - 1);
      OneLonger(2 * cp - n, n - 1);
    }
  }

  /** Every chunk of the sequence is delivered by exactly one rank. */
  lemma ZigzagIsPermutation(cp: nat)
    ensures IsPermutation(ZigzagIndices(cp, cp), 2 * cp)
  {
    ZigzagCounts(cp, cp, ZigzagIndices(cp, cp), Fronts(cp), Backs(cp, cp));
    FrontsAndBacks(cp, cp);
    assert Iota(0, 2 * cp) == Iota(0, cp) + Iota(cp, cp);
  }

  // ---------------------------------------------------------------- ranks of equal, even length

  lemma {:induction false} HalvesAt<T>(ranks: seq<seq<T>>, half: nat, k: nat)
    requires AllOfLength(ranks, 2 * half) && k < |ranks|
    ensures |AllHalves(ranks)| == 2 * |ranks|
    ensures AllHalves(ranks)[2 * k] == ranks[k][..half] && AllHalves(ranks)[2 * k + 1] == ranks[k][half..]
  {
    var m := |ranks| - 1;
    assert Halves(ranks[m]) == [ranks[m][..half], ranks[m][half..]];
    if m > 0 {
      HalvesAt(ranks[..m], half, if k < m then k else 0);
    } else {
      assert AllHalves(ranks[..0]) == [];
    }
  }

  /** Chunk `j` of the gathered sequence: the front half of rank `j`, or the back half of
      the rank that mirrors it. */
  function ChunkFrom<T>(ranks: seq<seq<T>>, half: nat, j: nat): (r: seq<T>)
    requires AllOfLength(ranks, 2 * half) && j < 2 * |ranks|
    ensures |r| == half
  {
    if j < |ranks| then ranks[j][..half] else ranks[2 * |ranks| - j - 1][half..]
  }

  function ChunksFrom<T>(ranks: seq<seq<T>>, half: nat): (r: seq<seq<T>>)
    requires AllOfLength(ranks, 2 * half)
    ensures |r| == 2 * |ranks| && forall j :: 0 <= j < |r| ==> r[j] == ChunkFrom(ranks, half, j)
  {
    seq(2 * |ranks|, j requires 0 <= j < 2 * |ranks| => ChunkFrom(ranks, half, j))
  }

  lemma DeliveredChunk<T>(ranks: seq<seq<T>>, half: nat, r: nat, k: nat)
    requires AllOfLength(ranks, 2 * half) && r < |ranks| && (k == 2 * r || k == 2 * r + 1)
    ensures |AllHalves(ranks)| == 2 * |ranks|
    ensures var j := ZigzagIndices(|ranks|, |ranks|)[k];
            0 <= j < 2 * |ranks| && AllHalves(ranks)[k] == ChunkFrom(ranks, half, j)
  {
    HalvesAt(ranks, half, r);
    ZigzagAt(|ranks|, |ranks|, r);
  }

  lemma GatherInOrder<T>(ranks: seq<seq<T>>, half: nat)
    requires AllOfLength(ranks, 2 * half)
    ensures Gathered(ranks) == Flatten(ChunksFrom(ranks, half))
  {
    var cp, chunks, indices := |ranks|, AllHalves(ranks), ZigzagIndices(|ranks|, |ranks|);
    if cp > 0 { HalvesAt(ranks, half, 0); }
    assert chunks[..2 * cp] == chunks && indices[..2 * cp] == indices;
    ZigzagIsPermutation(cp);
    SortInvertsPermutation(indices, 2 * cp);
    var ordered := InChunkOrder(chunks, indices);
    forall j | 0 <= j < 2 * cp ensures ordered[j] == ChunkFrom(ranks, half, j) {
      var k := SortedRange(indices)[j];
      DeliveredChunk(ranks, half, k / 2, k);
    }
    assert ordered == ChunksFrom(ranks, half);
  }

  // ---------------------------------------------------------------- round trips, block by block

  lemma HalfOfMultiple(n: nat, cp: nat, half: nat)
    requires 0 < cp && n == 2 * cp * half
    ensures ShardSize(n, cp) == half
  {
    var k := cp * 2;
    assert n == k * (n / k) + n % k;
    SameQuotient(k, n / k, n % k, half, 0);
  }

  /** A sequence of 2 * cp equal blocks: rank `rank` holds block `rank` and its mirror. */
  lemma TokensOfBlocks<T>(blocks: seq<seq<T>>, half: nat, cp: nat, rank: nat)
    requires rank < cp && |blocks| == 2 * cp && AllOfLength(blocks, half)
    ensures TokensOf(Flatten(blocks), rank, cp) == blocks[rank] + blocks[2 * cp - rank - 1]
  {
    if cp == 1 {
      FlattenTwo(blocks[0], blocks[1]);
      assert blocks == [blocks[0], blocks[1]];
    } else {
      SizeOfBlocks(blocks, half, cp);
      PickBlock(blocks, half, rank);
      PickBlock(blocks, half, cp * 2 - rank - 1);
    }
  }

  lemma SizeOfBlocks<T>(blocks: seq<seq<T>>, half: nat, cp: nat)
    requires 0 < cp && |blocks| == 2 * cp && AllOfLength(blocks, half)
    ensures ShardSize(|Flatten(blocks)|, cp) == half
  {
    FlattenLength(blocks, half);
    HalfOfMultiple(|Flatten(blocks)|, cp, half);
  }

  lemma PickBlock<T>(blocks: seq<seq<T>>, half: nat, j: nat)
    requires j < |blocks| && AllOfLength(blocks, half)
    ensures Block(Flatten(blocks), j, half) == blocks[j]
  {
    FlattenBlock(blocks, half, j);
  }

  lemma FlattenTwo<T>(x: seq<T>, y: seq<T>)
    ensures Flatten([x, y]) == x + y
  {
    assert [x, y][..1] == [x] && [x][..0] == [];
    assert Flatten([x]) == Flatten([x][..0]) + x;
    assert Flatten([x, y]) == Flatten([x, y][..1]) + y;
  }

  /** Sharding what was gathered gives every rank its own part back. */
  lemma ShardUndoesGather<T>(ranks: seq<seq<T>>, half: nat, rank: nat)
    requires AllOfLength(ranks, 2 * half) && rank < |ranks|
    ensures TokensOf(Gathered(ranks), rank, |ranks|) == ranks[rank]
  {
    GatherInOrder(ranks, half);
    TokensOfBlocks(ChunksFrom(ranks, half), half, |ranks|, rank);
    OwnChunks(ranks, half, rank);
  }

  lemma OwnChunks<T>(ranks: seq<seq<T>>, half: nat, rank: nat)
    requires AllOfLength(ranks, 2 * half) && rank < |ranks|
    ensures ChunksFrom(ranks, half)[rank] + ChunksFrom(ranks, half)[2 * |ranks| - rank - 1] == ranks[rank]
  {
    assert ranks[rank][..half] + ranks[rank][half..] == ranks[rank];
  }

  function Shards<T>(s: seq<T>, cp: nat): (r: seq<seq<T>>)
    ensures |r| == cp && forall rank :: 0 <= rank < cp ==> r[rank] == TokensOf(s, rank, cp)
  {
    seq(cp, rank requires 0 <= rank < cp => TokensOf(s, rank, cp))
  }

  function Blocks<T>(s: seq<T>, size: nat, n: nat): (r: seq<seq<T>>)
    ensures |r| == n && forall j :: 0 <= j < n ==> r[j] == Block(s, j, size)
  {
    seq(n, (j: nat) => Block(s, j, size))
  }

  lemma {:induction false} BlocksConcatenate<T>(s: seq<T>, size: nat, n: nat)
    requires n * size <= |s|
    ensures AllOfLength(Blocks(s, size, n), size) && Flatten(Blocks(s, size, n)) == s[..n * size]
  {
    if n > 0 {
      BlockBounds(n - 1, n, size);
      BlocksConcatenate(s, size, n - 1);
      OneMoreBlock(s, size, n, Blocks(s, size, n - 1), Blocks(s, size, n), (n - 1) * size, n * size);
    }
  }

  lemma OneMoreBlock<T>(s: seq<T>, size: nat, n: nat, front: seq<seq<T>>, all: seq<seq<T>>, start: nat, end: nat)
    requires 0 < n && front == Blocks(s, size, n - 1) && all == Blocks(s, size, n)
    requires start == (n - 1) * size && end == n * size == start + size <= |s|
    requires AllOfLength(front, size) && Flatten(front) == s[..start]
    ensures AllOfLength(all, size) && Flatten(all) == s[..end]
  {
    assert all[n - 1] == s[start..end];
    assert all == front + [all[n - 1]];
    FlattenSnoc(front, all[n - 1]);
    assert s[..end] == s[..start] + s[start..end];
  }

  /** Every sequence of length 2 * cp * half is 2 * cp blocks laid end to end. */
  lemma AsBlocks<T>(s: seq<T>, cp: nat, half: nat) returns (blocks: seq<seq<T>>)
    requires |s| == 2 * cp * half
    ensures |blocks| == 2 * cp && AllOfLength(blocks, half) && Flatten(blocks) == s
  {
    blocks := Blocks(s, half, 2 * cp);
    BlocksConcatenate(s, half, 2 * cp);
    assert s[..2 * cp * half] == s;
  }

  /** The gather undoes the zigzag, for every number of ranks and every length it divides. */
  lemma GatherUndoesShard<T>(s: seq<T>, cp: nat, half: nat)
    requires 0 < cp && |s| == 2 * cp * half
    ensures AllOfLength(Shards(s, cp), 2 * half)
    ensures Gathered(Shards(s, cp)) == s
  {
    var blocks := ShardsMirror(s, cp, half);
    GatherMirrored(Shards(s, cp), blocks, cp, half);
  }

  /** Each rank holds a block and its mirror. */
  predicate Mirrored<T(==)>(ranks: seq<seq<T>>, blocks: seq<seq<T>>, cp: nat, half: nat) {
    && |ranks| <= cp && |blocks| == 2 * cp && AllOfLength(blocks, half) && AllOfLength(ranks, 2 * half)
    && forall r {:trigger ranks[r]} :: 0 <= r < |ranks| ==> ranks[r] == blocks[r] + blocks[2 * cp - r - 1]
  }

  lemma ShardsMirror<T>(s: seq<T>, cp: nat, half: nat) returns (blocks: seq<seq<T>>)
    requires |s| == 2 * cp * half
    ensures Flatten(blocks) == s && Mirrored(Shards(s, cp), blocks, cp, half)
  {
    blocks := AsBlocks(s, cp, half);
    var ranks := Shards(s, cp);
    forall r {:trigger ranks[r]} | 0 <= r < cp ensures ranks[r] == blocks[r] + blocks[2 * cp - r - 1] {
      TokensOfBlocks(blocks, half, cp, r);
    }
  }

  lemma MirroredChunk<T>(ranks: seq<seq<T>>, blocks: seq<seq<T>>, cp: nat, half: nat, j: nat)
    requires |ranks| == cp && Mirrored(ranks, blocks, cp, half) && j < 2 * cp
    ensures ChunkFrom(ranks, half, j) == blocks[j]
  {
    var r := if j < cp then j else 2 * cp - j - 1;
    assert ranks[r] == blocks[r] + blocks[2 * cp - r - 1];
  }

  lemma GatherMirrored<T>(ranks: seq<seq<T>>, blocks: seq<seq<T>>, cp: nat, half: nat)
    requires |ranks| == cp && Mirrored(ranks, blocks, cp, half)
    ensures Gathered(ranks) == Flatten(blocks)
  {
    GatherInOrder(ranks, half);
    var chunks := ChunksFrom(ranks, half);
    forall j | 0 <= j < 2 * cp ensures chunks[j] == blocks[j] {
      MirroredChunk(ranks, blocks, cp, half, j);
    }
    assert chunks == blocks;
  }

  lemma GatheredMirrors(ranks: seq<seq<real>>, half: nat)
    requires AllOfLength(ranks, 2 * half)
    ensures Mirrored(ranks, ChunksFrom(ranks, half), |ranks|, half)
  {}

  // ---------------------------------------------------------------- the gradient of the gather

  function Add(x: seq<real>, y: seq<real>): (r: seq<real>)
    requires |x| == |y|
    ensures |r| == |x| && forall i :: 0 <= i < |r| ==> r[i] == x[i] + y[i]
  {
    seq(|x|, i requires 0 <= i < |x| => x[i] + y[i])
  }

  /** all_reduce(SUM): entry by entry over all ranks. */
  function ReduceSum(grads: seq<seq<real>>, n: nat): (r: seq<real>)
    requires AllOfLength(grads, n)
    ensures |r| == n
  {
    if grads == [] then seq(n, _ => 0.0) else Add(ReduceSum(grads[..|grads| - 1], n), grads[|grads| - 1])
  }

  /** Entry `i` of every rank's gradient. */
  function Column(grads: seq<seq<real>>, i: nat): (r: seq<real>)
    requires forall k :: 0 <= k < |grads| ==> i < |grads[k]|
    ensures |r| == |grads| && forall k :: 0 <= k < |r| ==> r[k] == grads[k][i]
  {
    seq(|grads|, k requires 0 <= k < |grads| => grads[k][i])
  }

  lemma {:induction false} ReducedEntry(grads: seq<seq<real>>, n: nat, i: nat)
    requires AllOfLength(grads, n) && i < n
    ensures ReduceSum(grads, n)[i] == Total(Column(grads, i))
  {
    if grads != [] {
      var m := |grads| - 1;
      ReducedEntry(grads[..m], n, i);
      assert Column(grads, i)[..m] == Column(grads[..m], i);
    }
  }

  /** Where entry `j` of a rank's two blocks lies in the whole sequence. */
  function GlobalPosition(cp: nat, half: nat, rank: nat, j: nat): nat
    requires rank < cp
  {
    if j < half then rank * half + j else (2 * cp - rank - 1) * half + (j - half)
  }

  lemma PositionInRange(cp: nat, half: nat, rank: nat, j: nat)
    requires rank < cp && j < 2 * half
    ensures GlobalPosition(cp, half, rank, j) < 2 * cp * half
  {
    BlockBounds(rank, 2 * cp, half);
    BlockBounds(2 * cp - rank - 1, 2 * cp, half);
  }

  lemma PickedEntry<T>(s: seq<T>, cp: nat, half: nat, rank: nat, j: nat)
    requires rank < cp && |s| == 2 * cp * half && j < 2 * half
    ensures |Block(s, rank, half)| == |Block(s, 2 * cp - rank - 1, half)| == half
    ensures GlobalPosition(cp, half, rank, j) < |s|
    ensures (Block(s, rank, half) + Block(s, 2 * cp - rank - 1, half))[j] == s[GlobalPosition(cp, half, rank, j)]
  {
    PositionInRange(cp, half, rank, j);
    EitherBlock(s, rank, 2 * cp - rank - 1, half, 2 * cp, j, GlobalPosition(cp, half, rank, j));
  }

  /** What `backward` gives a rank: for each of its positions the sum over all ranks of the
      incoming gradients of that position of the whole sequence. */
  ghost predicate IsLocalGradient(grads: seq<seq<real>>, half: nat, rank: nat, local: seq<real>)
    requires rank < |grads| && AllOfLength(grads, 2 * |grads| * half)
  {
    |local| == 2 * half && forall j :: 0 <= j < 2 * half ==> IsGradientAt(grads, half, rank, local[j], j)
  }

  ghost predicate IsGradientAt(grads: seq<seq<real>>, half: nat, rank: nat, g: real, j: nat)
    requires rank < |grads| && AllOfLength(grads, 2 * |grads| * half) && j < 2 * half
  {
    PositionInRange(|grads|, half, rank, j);
    g == Total(Column(grads, GlobalPosition(|grads|, half, rank, j)))
  }

  lemma PickedIsLocalGradient(grads: seq<seq<real>>, half: nat, rank: nat, local: seq<real>)
    requires rank < |grads| && AllOfLength(grads, 2 * |grads| * half)
    requires var sum := ReduceSum(grads, 2 * |grads| * half);
             local == Block(sum, rank, half) + Block(sum, 2 * |grads| - rank - 1, half)
    ensures IsLocalGradient(grads, half, rank, local)
  {
    var cp, sum := |grads|, ReduceSum(grads, 2 * |grads| * half);
    BlockAt(sum, rank, half, 2 * cp);
    BlockAt(sum, 2 * cp - rank - 1, half, 2 * cp);
    forall j | 0 <= j < 2 * half ensures IsGradientAt(grads, half, rank, local[j], j) {
      PickedEntry(sum, cp, half, rank, j);
      ReducedEntry(grads, 2 * cp * half, GlobalPosition(cp, half, rank, j));
    }
  }

  /** `backward` on one rank: the summed gradient, cut into 2 * cp blocks, its own two picked. */
  method GatherBackward(grads: seq<seq<real>>, rank: nat, half: nat) returns (local: seq<real>)
    requires rank < |grads| && AllOfLength(grads, 2 * |grads| * half)
    ensures local == TokensOf(ReduceSum(grads, 2 * |grads| * half), rank, |grads|)
    ensures IsLocalGradient(grads, half, rank, local)
  {
    var sum := AllReduce(grads, 2 * |grads| * half);
    local := Block(sum, rank, half) + Block(sum, 2 * |grads| - rank - 1, half);
    PickedBlocks(sum, |grads|, half, rank);
    PickedIsLocalGradient(grads, half, rank, local);
  }

  method AllReduce(grads: seq<seq<real>>, n: nat) returns (sum: seq<real>)
    requires AllOfLength(grads, n)
    ensures sum == ReduceSum(grads, n)
  {
    sum := seq(n, _ => 0.0);
    for r := 0 to |grads|
      invariant |sum| == n && sum == ReduceSum(grads[..r], n)
    {
      assert grads[..r + 1][..r] == grads[..r];
      sum := Add(sum, grads[r]);
    }
    assert grads[..|grads|] == grads;
  }

  lemma PickedBlocks<T>(s: seq<T>, cp: nat, half: nat, rank: nat)
    requires rank < cp && |s| == 2 * cp * half
    ensures TokensOf(s, rank, cp) == Block(s, rank, half) + Block(s, 2 * cp - rank - 1, half)
  {
    if cp > 1 {
      HalfOfMultiple(|s|, cp, half);
    } else {
      assert Block(s, 0, half) + Block(s, 1, half) == s;
    }
  }

  lemma {:induction false} DotAppend(a: seq<real>, b: seq<real>, x: seq<real>, y: seq<real>)
    requires |a| == |x| && |b| == |y|
    ensures Dot(a + b, x + y) == Dot(a, x) + Dot(b, y)
  {
    if b == [] {
      assert a + b == a && x + y == x;
    } else {
      assert (a + b)[..|a + b| - 1] == a + b[..|b| - 1];
      assert (x + y)[..|x + y| - 1] == x + y[..|y| - 1];
      DotAppend(a, b[..|b| - 1], x, y[..|y| - 1]);
    }
  }

  /** Sum of the inner products of blocks lo, ..., lo + n - 1. */
  function BlockDots(x: seq<seq<real>>, y: seq<seq<real>>, half: nat, lo: nat, n: nat): real
    requires AllOfLength(x, half) && AllOfLength(y, half) && |x| == |y| && lo + n <= |x|
  {
    if n == 0 then 0.0 else BlockDots(x, y, half, lo, n - 1) + Dot(x[lo + n - 1], y[lo + n - 1])
  }

  lemma {:induction false} DotOfBlocks(x: seq<seq<real>>, y: seq<seq<real>>, half: nat)
    requires AllOfLength(x, half) && AllOfLength(y, half) && |x| == |y|
    ensures |Flatten(x)| == |Flatten(y)| && Dot(Flatten(x), Flatten(y)) == BlockDots(x, y, half, 0, |x|)
  {
    if x != [] {
      var m := |x| - 1;
      DotOfBlocks(x[..m], y[..m], half);
      DotAppend(Flatten(x[..m]), x[m], Flatten(y[..m]), y[m]);
      BlockDotsPrefix(x, y, half, m);
    }
  }

  lemma {:induction false} BlockDotsPrefix(x: seq<seq<real>>, y: seq<seq<real>>, half: nat, n: nat)
    requires AllOfLength(x, half) && AllOfLength(y, half) && |x| == |y| && n < |x|
    ensures BlockDots(x[..|x| - 1], y[..|y| - 1], half, 0, n) == BlockDots(x, y, half, 0, n)
  {
    if n > 0 { BlockDotsPrefix(x, y, half, n - 1); }
  }

  lemma {:induction false} BlockDotsFront(x: seq<seq<real>>, y: seq<seq<real>>, half: nat, lo: nat, n: nat)
    requires AllOfLength(x, half) && AllOfLength(y, half) && |x| == |y| && 0 < n && lo + n <= |x|
    ensures BlockDots(x, y, half, lo, n) == Dot(x[lo], y[lo]) + BlockDots(x, y, half, lo + 1, n - 1)
  {
    if n > 1 { BlockDotsFront(x, y, half, lo, n - 1); }
  }

  lemma {:induction false} BlockDotsSplit(x: seq<seq<real>>, y: seq<seq<real>>, half: nat, n: nat, m: nat, total: nat)
    requires AllOfLength(x, half) && AllOfLength(y, half) && |x| == |y| && n + m == total <= |x|
    ensures BlockDots(x, y, half, 0, total) == BlockDots(x, y, half, 0, n) + BlockDots(x, y, half, n, m)
  {
    if m > 0 { BlockDotsSplit(x, y, half, n, m - 1, total - 1); }
  }

  /** Sum over the ranks of the inner products of what they hold. */
  function RankDots(x: seq<seq<real>>, y: seq<seq<real>>, size: nat): real
    requires AllOfLength(x, size) && AllOfLength(y, size) && |x| == |y|
  {
    if x == [] then 0.0
    else RankDots(x[..|x| - 1], y[..|y| - 1], size) + Dot(x[|x| - 1], y[|y| - 1])
  }

  lemma {:induction false} RanksCoverBlocks(rx: seq<seq<real>>, x: seq<seq<real>>, ry: seq<seq<real>>,
                                            y: seq<seq<real>>, cp: nat, half: nat, lo: nat)
    requires Mirrored(rx, x, cp, half) && Mirrored(ry, y, cp, half) && |rx| == |ry| && lo + |rx| == 2 * cp
    ensures RankDots(rx, ry, 2 * half) == BlockDots(x, y, half, 0, |rx|) + BlockDots(x, y, half, lo, |rx|)
  {
    if rx != [] {
      var n := |rx| - 1;
      RanksCoverBlocks(rx[..n], x, ry[..n], y, cp, half, lo + 1);
      RankDot(rx, x, ry, y, cp, half, n);
      BlockDotsFront(x, y, half, lo, |rx|);
    }
  }

  lemma RankDot(rx: seq<seq<real>>, x: seq<seq<real>>, ry: seq<seq<real>>, y: seq<seq<real>>, cp: nat, half: nat,
                r: nat)
    requires Mirrored(rx, x, cp, half) && Mirrored(ry, y, cp, half) && r < |rx| == |ry|
    ensures Dot(rx[r], ry[r]) == Dot(x[r], y[r]) + Dot(x[2 * cp - r - 1], y[2 * cp - r - 1])
  {
    assert rx[r] == x[r] + x[2 * cp - r - 1] && ry[r] == y[r] + y[2 * cp - r - 1];
    DotAppend(x[r], x[2 * cp - r - 1], y[r], y[2 * cp - r - 1]);
  }

  /** The inner products of one tensor with several. */
  function DotsWith(x: seq<real>, ys: seq<seq<real>>): (r: seq<real>)
    requires AllOfLength(ys, |x|)
    ensures |r| == |ys| && forall k :: 0 <= k < |r| ==> r[k] == Dot(x, ys[k])
  {
    seq(|ys|, k requires 0 <= k < |ys| => Dot(x, ys[k]))
  }

  lemma {:induction false} DotAdd(x: seq<real>, y: seq<real>, z: seq<real>)
    requires |x| == |y| == |z|
    ensures Dot(x, Add(y, z)) == Dot(x, y) + Dot(x, z)
  {
    if x != [] {
      var m := |x| - 1;
      DotAdd(x[..m], y[..m], z[..m]);
      assert Add(y, z)[..m] == Add(y[..m], z[..m]);
      TimesSum(x[m], y[m], z[m]);
    }
  }

  lemma TimesSum(a: real, b: real, c: real)
    ensures a * (b + c) == a * b + a * c
  {}

  lemma {:induction false} DotZeros(x: seq<real>, zeros: seq<real>)
    requires |zeros| == |x| && forall i :: 0 <= i < |zeros| ==> zeros[i] == 0.0
    ensures Dot(x, zeros) == 0.0
  {
    if x != [] { DotZeros(x[..|x| - 1], zeros[..|x| - 1]); }
  }

  lemma {:induction false} DotOfSum(x: seq<real>, grads: seq<seq<real>>)
    requires AllOfLength(grads, |x|)
    ensures Dot(x, ReduceSum(grads, |x|)) == Total(DotsWith(x, grads))
  {
    if grads == [] {
      DotZeros(x, ReduceSum(grads, |x|));
    } else {
      var m := |grads| - 1;
      DotOfSum(x, grads[..m]);
      DotAdd(x, ReduceSum(grads[..m], |x|), grads[m]);
      assert DotsWith(x, grads)[..m] == DotsWith(x, grads[..m]);
    }
  }

  lemma LocalGradientsAreShards(grads: seq<seq<real>>, half: nat, locals: seq<seq<real>>)
    requires |locals| == |grads| && AllOfLength(grads, 2 * |grads| * half)
    requires forall r :: 0 <= r < |grads| ==> IsLocalGradient(grads, half, r, locals[r])
    ensures locals == Shards(ReduceSum(grads, 2 * |grads| * half), |grads|)
  {
    var cp, sum := |grads|, ReduceSum(grads, 2 * |grads| * half);
    forall r | 0 <= r < cp ensures locals[r] == TokensOf(sum, r, cp) {
      OneLocalGradient(grads, half, r, locals[r]);
    }
  }

  lemma OneLocalGradient(grads: seq<seq<real>>, half: nat, rank: nat, local: seq<real>)
    requires rank < |grads| && AllOfLength(grads, 2 * |grads| * half) && IsLocalGradient(grads, half, rank, local)
    ensures local == TokensOf(ReduceSum(grads, 2 * |grads| * half), rank, |grads|)
  {
    var cp, sum := |grads|, ReduceSum(grads, 2 * |grads| * half);
    PickedBlocks(sum, cp, half, rank);
    BlockAt(sum, rank, half, 2 * cp);
    BlockAt(sum, 2 * cp - rank - 1, half, 2 * cp);
    var picked := Block(sum, rank, half) + Block(sum, 2 * cp - rank - 1, half);
    PickedIsLocalGradient(grads, half, rank, picked);
    forall j | 0 <= j < 2 * half ensures local[j] == picked[j] {
      assert IsGradientAt(grads, half, rank, local[j], j) && IsGradientAt(grads, half, rank, picked[j], j);
    }
  }

  /** The backward pass is the adjoint of the gather: the inner products of the gathered
      tensor with the gradients of all ranks add up to the inner products of the ranks' own
      tensors with the gradients they get back. */
  lemma GatherBackwardIsAdjoint(ranks: seq<seq<real>>, grads: seq<seq<real>>, half: nat, locals: seq<seq<real>>)
    requires |ranks| == |grads| == |locals|
    requires AllOfLength(ranks, 2 * half) && AllOfLength(grads, 2 * |ranks| * half) && AllOfLength(locals, 2 * half)
    requires forall r :: 0 <= r < |grads| ==> IsLocalGradient(grads, half, r, locals[r])
    ensures |Gathered(ranks)| == 2 * |ranks| * half
    ensures Total(DotsWith(Gathered(ranks), grads)) == RankDots(ranks, locals, 2 * half)
  {
    var cp, sum := |ranks|, ReduceSum(grads, 2 * |ranks| * half);
    var x := ChunksFrom(ranks, half);
    GatherInOrder(ranks, half);
    FlattenLength(x, half);
    GatheredMirrors(ranks, half);
    var y := ShardsMirror(sum, cp, half);
    LocalGradientsAreShards(grads, half, locals);
    AdjointOfBlocks(ranks, x, locals, y, cp, half);
    DotOfSum(Gathered(ranks), grads);
  }

  lemma AllBlocksOnce(rx: seq<seq<real>>, x: seq<seq<real>>, ry: seq<seq<real>>, y: seq<seq<real>>, cp: nat, half: nat)
    requires Mirrored(rx, x, cp, half) && Mirrored(ry, y, cp, half) && |rx| == |ry| == cp
    ensures RankDots(rx, ry, 2 * half) == BlockDots(x, y, half, 0, |x|)
  {
    RanksCoverBlocks(rx, x, ry, y, cp, half, cp);
    BlockDotsSplit(x, y, half, cp, cp, |x|);
  }

  lemma AdjointOfBlocks(rx: seq<seq<real>>, x: seq<seq<real>>, ry: seq<seq<real>>, y: seq<seq<real>>, cp: nat,
                        half: nat)
    requires Mirrored(rx, x, cp, half) && Mirrored(ry, y, cp, half) && |rx| == |ry| == cp
    ensures |Flatten(x)| == |Flatten(y)| && Dot(Flatten(x), Flatten(y)) == RankDots(rx, ry, 2 * half)
  {
    AllBlocksOnce(rx, x, ry, y, cp, half);
    DotOfBlocks(x, y, half);
  }
}
