/** Log-probabilities of packed sequences under tensor and context parallelism
    (`from_parallel_logits_to_logprobs_packed_sequences`,
    nemo_rl/distributed/model_utils.py). */
module PackedLogprobs {
  import opened Lists
  import opened ContextParallel
  import opened DistributedLogprobs

  /** The logits of one position: the parts of all tensor-parallel ranks. */
  type Logits = seq<seq<real>>

  /** `cu` are the padded cumulative lengths of the sequences packed into `total` tokens; with
      context parallelism every padded length divides by 2 * cp. */
  ghost predicate IsCumulative(cu: seq<nat>, halves: seq<nat>, total: nat, cp: nat) {
    && 0 < cp && |cu| == |halves| + 1 && cu[0] == 0 && cu[|halves|] == total
    && forall i :: 0 <= i < |halves| ==> PaddedTo(cu[i], cu[i + 1], halves[i], cp)
  }

  ghost predicate PaddedTo(start: nat, end: nat, half: nat, cp: nat) {
    start <= end && (cp > 1 ==> end - start == 2 * cp * half)
  }

  lemma {:induction false} Ascends(cu: seq<nat>, halves: seq<nat>, total: nat, cp: nat, i: nat, j: nat)
    requires IsCumulative(cu, halves, total, cp) && i <= j <= |halves|
    ensures cu[i] <= cu[j]
    decreases j
  {
    if i < j {
      assert PaddedTo(cu[j - 1], cu[j], halves[j - 1], cp);
      Ascends(cu, halves, total, cp, i, j - 1);
    }
  }

  lemma PieceBounds(cu: seq<nat>, halves: seq<nat>, total: nat, cp: nat, i: nat)
    requires IsCumulative(cu, halves, total, cp) && i < |halves|
    ensures cu[i] <= cu[i + 1] <= total
    ensures PaddedTo(cu[i], cu[i + 1], halves[i], cp)
  {
    assert PaddedTo(cu[i], cu[i + 1], halves[i], cp);
    Ascends(cu, halves, total, cp, i + 1, |halves|);
  }

  lemma PieceInside(cu: seq<nat>, halves: seq<nat>, total: nat, cp: nat, i: nat)
    requires IsCumulative(cu, halves, total, cp) && i < |halves|
    ensures cu[i] <= cu[i + 1] <= total
  {
    PieceBounds(cu, halves, total, cp, i);
  }

  /** Sequence `i` of the packed data. */
  function Piece<T>(s: seq<T>, cu: seq<nat>, i: nat): seq<T>
    requires i + 1 < |cu|
  {
    Slice(s, cu[i], cu[i + 1])
  }

  function Pieces<T>(s: seq<T>, cu: seq<nat>, n: nat): (r: seq<seq<T>>)
    requires n < |cu|
    ensures |r| == n && forall i :: 0 <= i < n ==> r[i] == Piece(s, cu, i)
  {
    seq(n, i requires 0 <= i < n => Piece(s, cu, i))
  }

  /** torch.roll(s, -1) */
  function Rolled<T>(s: seq<T>): (r: seq<T>)
    ensures |r| == |s| && forall j :: 0 <= j < |s| ==> r[j] == if j + 1 < |s| then s[j + 1] else s[0]
  {
    if s == [] then [] else s[1..] + [s[0]]
  }

  function RolledPieces(target: seq<int>, cu: seq<nat>, n: nat): (r: seq<seq<int>>)
    requires n < |cu|
    ensures |r| == n && forall i :: 0 <= i < n ==> r[i] == Rolled(Piece(target, cu, i))
  {
    seq(n, i requires 0 <= i < n => Rolled(Piece(target, cu, i)))
  }

  /** What context-parallel rank `r` holds of each of the pieces. */
  function Locals<T>(pieces: seq<seq<T>>, r: nat, cp: nat): (l: seq<seq<T>>)
    requires r < cp
    ensures |l| == |pieces| && forall i :: 0 <= i < |l| ==> l[i] == TokensOf(pieces[i], r, cp)
  {
    seq(|pieces|, i requires 0 <= i < |pieces| => TokensOf(pieces[i], r, cp))
  }

  // ---------------------------------------------------------------- offsets

  lemma LocalLength<T>(piece: seq<T>, half: nat, r: nat, cp: nat)
    requires r < cp && (cp > 1 ==> |piece| == 2 * cp * half)
    ensures |TokensOf(piece, r, cp)| * cp == |piece|
  {
    if cp > 1 {
      var blocks := AsBlocks(piece, cp, half);
      TokensOfBlocks(blocks, half, cp, r);
      DoubleHalf(half, cp);
    }
  }

  lemma DoubleHalf(half: nat, cp: nat)
    ensures (half + half) * cp == 2 * cp * half
  {}

  /** The pieces have the lengths that `cu` cumulates. */
  predicate CutAt<T>(pieces: seq<seq<T>>, cu: seq<nat>) {
    |cu| == |pieces| + 1 && forall k :: 0 <= k < |pieces| ==> cu[k] + |pieces[k]| == cu[k + 1]
  }

  lemma {:induction false} LocalOffset<T>(pieces: seq<seq<T>>, cu: seq<nat>, halves: seq<nat>, total: nat, cp: nat,
                                          r: nat, n: nat)
    requires IsCumulative(cu, halves, total, cp) && r < cp && n <= |pieces| && CutAt(pieces, cu)
    ensures |Flatten(Locals(pieces, r, cp)[..n])| * cp == cu[n]
  {
    var locals := Locals(pieces, r, cp);
    if n > 0 {
      LocalOffset(pieces, cu, halves, total, cp, r, n - 1);
      PieceBounds(cu, halves, total, cp, n - 1);
      LocalLength(pieces[n - 1], halves[n - 1], r, cp);
      BlockAtOffset(locals, n - 1);
      AddTimes(|Flatten(locals[..n - 1])|, |locals[n - 1]|, |Flatten(locals[..n])|, cp, cu[n - 1], |pieces[n - 1]|);
    }
  }

  lemma AddTimes(a: nat, b: nat, c: nat, cp: nat, x: nat, y: nat)
    requires a * cp == x && b * cp == y && c == a + b
    ensures c * cp == x + y
  {}

  /** n // cp */
  function Share(n: nat, cp: nat): nat
    requires 0 < cp
  {
    if n < cp then 0 else 1 + Share(n - cp, cp)
  }

  lemma {:induction false} ShareIsQuotient(n: nat, cp: nat)
    requires 0 < cp
    ensures Share(n, cp) == n / cp
  {
    if n >= cp {
      ShareIsQuotient(n - cp, cp);
      assert n == cp * (n / cp) + n % cp;
      assert n - cp == cp * ((n - cp) / cp) + (n - cp) % cp;
      SameQuotient(cp, n / cp - 1, n % cp, (n - cp) / cp, (n - cp) % cp);
    }
  }

  /** What the code computes with //. */
  method Quotient(n: nat, cp: nat) returns (q: nat)
    requires 0 < cp
    ensures q == Share(n, cp)
  {
    ShareIsQuotient(n, cp);
    q := n / cp;
  }

  lemma {:induction false} ShareOfMultiple(a: nat, cp: nat)
    requires 0 < cp
    ensures Share(a * cp, cp) == a
  {
    if a > 0 {
      assert a * cp == (a - 1) * cp + cp && (a - 1) * cp >= 0;
      ShareOfMultiple(a - 1, cp);
    }
  }

  /** Rank-local offsets are the global ones divided by the number of ranks. */
  lemma LocalStart<T>(pieces: seq<seq<T>>, cu: seq<nat>, halves: seq<nat>, total: nat, cp: nat, r: nat, n: nat)
    requires IsCumulative(cu, halves, total, cp) && r < cp && n <= |pieces| && CutAt(pieces, cu)
    ensures Share(cu[n], cp) == |Flatten(Locals(pieces, r, cp)[..n])| <= |Flatten(Locals(pieces, r, cp))|
    ensures |Flatten(Locals(pieces, r, cp))| == Share(total, cp)
  {
    var locals := Locals(pieces, r, cp);
    LocalOffset(pieces, cu, halves, total, cp, r, n);
    LocalOffset(pieces, cu, halves, total, cp, r, |pieces|);
    assert locals[..|pieces|] == locals;
    ShareOfMultiple(|Flatten(locals[..n])|, cp);
    ShareOfMultiple(|Flatten(locals)|, cp);
    FlattenPrefixLength(locals, n);
  }

  // ---------------------------------------------------------------- the three loops

  /** a[lo : lo + |values|] = values */
  method AssignSlice<T>(a: array<T>, lo: nat, values: seq<T>)
    requires lo + |values| <= a.Length
    modifies a
    ensures a[..] == old(a[..lo]) + values + old(a[lo + |values|..])
  {
    for k := 0 to |values|
      invariant forall m :: 0 <= m < a.Length ==> a[m] == if lo <= m < lo + k then values[m - lo] else old(a[m])
    {
      a[lo + k] := values[k];
    }
  }

  function Fill<T>(x: T, n: nat): (r: seq<T>)
    ensures |r| == n && forall i :: 0 <= i < n ==> r[i] == x
  {
    seq(n, _ => x)
  }

  /** The slice right behind what has been written so far. */
  method AssignNext<T>(a: array<T>, ghost before: seq<T>, zero: T, lo: nat, values: seq<T>)
    requires lo == |before| && lo + |values| <= a.Length
    requires a[..] == before + Fill(zero, a.Length - |before|)
    modifies a
    ensures a[..] == before + values + Fill(zero, a.Length - lo - |values|)
  {
    AssignSlice(a, lo, values);
  }

  lemma PieceLengths<T>(s: seq<T>, cu: seq<nat>, halves: seq<nat>, cp: nat)
    requires IsCumulative(cu, halves, |s|, cp)
    ensures forall i :: 0 <= i < |halves| ==> cu[i] + |Piece(s, cu, i)| == cu[i + 1]
  {
    forall i | 0 <= i < |halves| ensures cu[i] + |Piece(s, cu, i)| == cu[i + 1] {
      PieceBounds(cu, halves, |s|, cp, i);
    }
  }

  /** Block `i` of a rank's tensor of `n` tokens lies at the global offset divided by the
      number of ranks. */
  ghost predicate BlockLies<T>(cu: seq<nat>, locals: seq<seq<T>>, cp: nat, n: nat, i: nat)
    requires 0 < cp && i < |locals| < |cu|
  {
    && Share(cu[i], cp) == |Flatten(locals[..i])|
    && Share(cu[i + 1], cp) == |Flatten(locals[..i])| + |locals[i]| <= n
    && Flatten(locals[..i + 1]) == Flatten(locals[..i]) + locals[i]
  }

  ghost predicate BlocksLie<T>(cu: seq<nat>, locals: seq<seq<T>>, cp: nat, n: nat) {
    && 0 < cp && |cu| == |locals| + 1 && |Flatten(locals)| == n
    && forall i :: 0 <= i < |locals| ==> BlockLies(cu, locals, cp, n, i)
  }

  ghost predicate PiecesLie(cu: seq<nat>, total: nat) {
    forall i :: 0 <= i < |cu| - 1 ==> PieceLies(cu, total, i)
  }

  ghost predicate PieceLies(cu: seq<nat>, total: nat, i: nat)
    requires i < |cu| - 1
  {
    cu[i] <= cu[i + 1] <= total
  }

  lemma LocalsLie<T>(pieces: seq<seq<T>>, cu: seq<nat>, halves: seq<nat>, total: nat, cp: nat, r: nat)
    requires IsCumulative(cu, halves, total, cp) && r < cp && CutAt(pieces, cu)
    ensures PiecesLie(cu, total) && BlocksLie(cu, Locals(pieces, r, cp), cp, Share(total, cp))
  {
    var locals := Locals(pieces, r, cp);
    LocalStart(pieces, cu, halves, total, cp, r, 0);
    forall i | 0 <= i < |locals| ensures BlockLies(cu, locals, cp, Share(total, cp), i) {
      LocalStart(pieces, cu, halves, total, cp, r, i);
      LocalStart(pieces, cu, halves, total, cp, r, i + 1);
      BlockAtOffset(locals, i);
      assert locals[..i + 1][..i] == locals[..i];
    }
    forall i | 0 <= i < |halves| ensures PieceLies(cu, total, i) {
      PieceBounds(cu, halves, total, cp, i);
    }
  }

  /** One sequence's part, written where the sequence lies. */
  method RollOne(rolled: array<int>, ghost before: seq<int>, piece: seq<int>, lo: nat, r: nat, cp: nat,
                 ghost mine: seq<int>)
    requires r < cp && mine == TokensOf(Rolled(piece), r, cp)
    requires lo == |before| && lo + |mine| <= rolled.Length
    requires rolled[..] == before + Fill(0, rolled.Length - |before|)
    modifies rolled
    ensures rolled[..] == before + mine + Fill(0, rolled.Length - lo - |mine|)
  {
    ghost var now := rolled[..];
    var part := TokensOnThisRank(Rolled(piece), r, cp);
    assert rolled[..] == now;
    AssignNext(rolled, before, 0, lo, part);
  }

  /** `locals[i]` is this rank's part of sequence `i`'s shifted targets. */
  ghost predicate PartAt(target: seq<int>, cu: seq<nat>, r: nat, cp: nat, locals: seq<seq<int>>, i: nat)
    requires r < cp && i < |locals| && |cu| == |locals| + 1
  {
    locals[i] == TokensOf(Rolled(Piece(target, cu, i)), r, cp)
  }

  /** Each sequence's targets shifted by one and cut down to this rank's part, written into
      one tensor. */
  method RollTargets(target: seq<int>, cu: seq<nat>, r: nat, cp: nat, ghost locals: seq<seq<int>>)
    returns (rolled: array<int>)
    requires |cu| == |locals| + 1 && r < cp && PiecesLie(cu, |target|)
    requires BlocksLie(cu, locals, cp, Share(|target|, cp))
    requires forall i :: 0 <= i < |locals| ==> PartAt(target, cu, r, cp, locals, i)
    ensures fresh(rolled) && rolled[..] == Flatten(locals)
  {
    var size := Quotient(|target|, cp);
    rolled := new int[size](_ => 0);
    ghost var done: seq<int> := [];
    for i := 0 to |cu| - 1
      invariant done == Flatten(locals[..i]) && |done| <= rolled.Length
      invariant rolled[..] == done + Fill(0, rolled.Length - |done|)
    {
      assert BlockLies(cu, locals, cp, size, i) && PieceLies(cu, |target|, i);
      assert PartAt(target, cu, r, cp, locals, i);
      var lo := Quotient(cu[i], cp);
      FlattenNext(locals, i);
      RollOne(rolled, done, target[cu[i]..cu[i + 1]], lo, r, cp, locals[i]);
      done := done + locals[i];
    }
    assert locals[..|locals|] == locals;
  }

  // ---------------------------------------------------------------- every rank's log-probabilities

  /** The log-probabilities of each sequence as if nothing were sharded. */
  function Direct(exp: real -> real, log: real -> real, z: seq<Logits>, target: seq<int>,
                  cu: seq<nat>): (p: seq<seq<real>>)
    requires 0 < |cu| && |z| == |target|
    ensures |p| == |cu| - 1
    ensures forall i :: 0 <= i < |p| ==>
              |Piece(z, cu, i)| == |Rolled(Piece(target, cu, i))| &&
              p[i] == Logprobs(exp, log, Piece(z, cu, i), Rolled(Piece(target, cu, i)))
  {
    seq(|cu| - 1, i requires 0 <= i < |cu| - 1 => Logprobs(exp, log, Piece(z, cu, i), Rolled(Piece(target, cu, i))))
  }

  lemma LogprobsTokens(exp: real -> real, log: real -> real, z: seq<Logits>, t: seq<int>, r: nat, cp: nat)
    requires |z| == |t| && r < cp
    ensures |TokensOf(z, r, cp)| == |TokensOf(t, r, cp)|
    ensures Logprobs(exp, log, TokensOf(z, r, cp), TokensOf(t, r, cp)) == TokensOf(Logprobs(exp, log, z, t), r, cp)
  {
    if cp > 1 {
      var size := ShardSize(|z|, cp);
      LogprobsBlocks(exp, log, z, t, r, cp * 2 - r - 1, size);
    }
  }

  lemma LogprobsJoin(exp: real -> real, log: real -> real, z: seq<Logits>, t: seq<int>, y: seq<Logits>, u: seq<int>)
    requires |z| == |t| && |y| == |u|
    ensures Logprobs(exp, log, z + y, t + u) == Logprobs(exp, log, z, t) + Logprobs(exp, log, y, u)
  {}

  lemma LogprobsBlock(exp: real -> real, log: real -> real, z: seq<Logits>, t: seq<int>, i: nat, size: nat)
    requires |z| == |t|
    ensures |Block(z, i, size)| == |Block(t, i, size)|
    ensures Logprobs(exp, log, Block(z, i, size), Block(t, i, size)) == Block(Logprobs(exp, log, z, t), i, size)
  {
    LogprobsSlice(exp, log, z, t, i * size, (i + 1) * size);
  }

  lemma LogprobsBlocks(exp: real -> real, log: real -> real, z: seq<Logits>, t: seq<int>, i: nat, j: nat, size: nat)
    requires |z| == |t|
    ensures |Block(z, i, size) + Block(z, j, size)| == |Block(t, i, size) + Block(t, j, size)|
    ensures Logprobs(exp, log, Block(z, i, size) + Block(z, j, size), Block(t, i, size) + Block(t, j, size))
         == Block(Logprobs(exp, log, z, t), i, size) + Block(Logprobs(exp, log, z, t), j, size)
  {
    LogprobsBlock(exp, log, z, t, i, size);
    LogprobsBlock(exp, log, z, t, j, size);
    LogprobsJoin(exp, log, Block(z, i, size), Block(t, i, size), Block(z, j, size), Block(t, j, size));
  }

  lemma LogprobsSlice(exp: real -> real, log: real -> real, z: seq<Logits>, t: seq<int>, a: nat, b: nat)
    requires |z| == |t|
    ensures |Slice(z, a, b)| == |Slice(t, a, b)|
    ensures Logprobs(exp, log, Slice(z, a, b), Slice(t, a, b)) == Slice(Logprobs(exp, log, z, t), a, b)
  {}

  ghost predicate RowAt(exp: real -> real, log: real -> real, z: seq<seq<Logits>>, t: seq<seq<int>>,
                        p: seq<seq<real>>, i: nat)
    requires i < |z| == |t| == |p|
  {
    |z[i]| == |t[i]| && p[i] == Logprobs(exp, log, z[i], t[i])
  }

  ghost predicate RowsAre(exp: real -> real, log: real -> real, z: seq<seq<Logits>>, t: seq<seq<int>>,
                          p: seq<seq<real>>) {
    |z| == |t| == |p| && forall i :: 0 <= i < |z| ==> RowAt(exp, log, z, t, p, i)
  }

  lemma {:induction false} LogprobsFlatten(exp: real -> real, log: real -> real, z: seq<seq<Logits>>, t: seq<seq<int>>,
                                           p: seq<seq<real>>, n: nat)
    requires RowsAre(exp, log, z, t, p) && n <= |z|
    ensures |Flatten(z[..n])| == |Flatten(t[..n])|
    ensures Logprobs(exp, log, Flatten(z[..n]), Flatten(t[..n])) == Flatten(p[..n])
  {
    if n > 0 {
      var m := n - 1;
      LogprobsFlatten(exp, log, z, t, p, m);
      assert RowAt(exp, log, z, t, p, m);
      assert z[..n] == z[..m] + [z[m]] && t[..n] == t[..m] + [t[m]] && p[..n] == p[..m] + [p[m]];
      FlattenSnoc(z[..m], z[m]);
      FlattenSnoc(t[..m], t[m]);
      FlattenSnoc(p[..m], p[m]);
      LogprobsJoin(exp, log, Flatten(z[..m]), Flatten(t[..m]), z[m], t[m]);
    }
  }

  /** A rank computes its part of the unsharded log-probabilities of every sequence. */
  lemma RankHoldsItsPart(exp: real -> real, log: real -> real, z: seq<Logits>, target: seq<int>, cu: seq<nat>, r: nat,
                         cp: nat)
    requires 0 < |cu| && |z| == |target| && r < cp
    ensures var local := Flatten(Locals(Pieces(z, cu, |cu| - 1), r, cp));
            var rolled := Flatten(Locals(RolledPieces(target, cu, |cu| - 1), r, cp));
            |local| == |rolled| &&
            Logprobs(exp, log, local, rolled) == Flatten(Locals(Direct(exp, log, z, target, cu), r, cp))
  {
    var n := |cu| - 1;
    var z', t', p' := Locals(Pieces(z, cu, n), r, cp), Locals(RolledPieces(target, cu, n), r, cp),
                      Locals(Direct(exp, log, z, target, cu), r, cp);
    forall i | 0 <= i < n ensures RowAt(exp, log, z', t', p', i) {
      LogprobsTokens(exp, log, Piece(z, cu, i), Rolled(Piece(target, cu, i)), r, cp);
    }
    LogprobsFlatten(exp, log, z', t', p', n);
    assert z'[..n] == z' && t'[..n] == t' && p'[..n] == p';
  }

  /** chunk_size: None, or the number of positions per chunk. */
  datatype Chunking = Whole | Chunks(size: nat)

  method ApplyLogprob(exp: real -> real, log: real -> real, logits: seq<Logits>, starts: seq<int>, targets: seq<int>,
                      chunking: Chunking) returns (ok: bool, out: seq<real>)
    requires Shaped(logits, starts) && |targets| == |logits| && (chunking.Chunks? ==> 0 < chunking.size)
    ensures ok == (chunking.Whole? || logits != [])
    ensures ok ==> out == Logprobs(exp, log, logits, targets)
  {
    match chunking {
      case Whole =>
        out := Forward(exp, log, logits, starts, targets);
        ok := true;
      case Chunks(size) =>
        ok, out := ChunkedForward(exp, log, logits, starts, targets, size);
    }
  }

  /** How the packed logits are spread over the context-parallel ranks. */
  ghost predicate Spread(local: seq<seq<Logits>>, z: seq<Logits>, cu: seq<nat>, starts: seq<int>, cp: nat)
    requires 0 < |cu|
  {
    |local| == cp && forall r :: 0 <= r < cp ==>
      Shaped(local[r], starts) && local[r] == Flatten(Locals(Pieces(z, cu, |cu| - 1), r, cp))
  }

  ghost predicate Ready(z: seq<Logits>, target: seq<int>, cu: seq<nat>, halves: seq<nat>, cp: nat) {
    |z| == |target| && IsCumulative(cu, halves, |target|, cp)
  }

  lemma TargetsLie(target: seq<int>, cu: seq<nat>, halves: seq<nat>, r: nat, cp: nat)
    requires IsCumulative(cu, halves, |target|, cp) && r < cp
    ensures PiecesLie(cu, |target|)
    ensures BlocksLie(cu, Locals(RolledPieces(target, cu, |cu| - 1), r, cp), cp, Share(|target|, cp))
    ensures var locals := Locals(RolledPieces(target, cu, |cu| - 1), r, cp);
            forall i :: 0 <= i < |locals| ==> PartAt(target, cu, r, cp, locals, i)
  {
    PieceLengths(target, cu, halves, cp);
    LocalsLie(RolledPieces(target, cu, |cu| - 1), cu, halves, |target|, cp, r);
  }

  lemma LocalsEmpty(z: seq<Logits>, target: seq<int>, cu: seq<nat>, halves: seq<nat>, r: nat, cp: nat)
    requires Ready(z, target, cu, halves, cp) && r < cp
    ensures Flatten(Locals(Pieces(z, cu, |cu| - 1), r, cp)) == [] <==> target == []
  {
    var pieces := Pieces(z, cu, |cu| - 1);
    PieceLengths(z, cu, halves, cp);
    LocalOffset(pieces, cu, halves, |z|, cp, r, |pieces|);
    assert Locals(pieces, r, cp)[..|pieces|] == Locals(pieces, r, cp);
    ZeroTimes(|Flatten(Locals(pieces, r, cp))|, cp);
  }

  lemma ZeroTimes(a: nat, b: nat)
    requires 0 < b
    ensures a * b == 0 <==> a == 0
  {}

  method RankProbs(exp: real -> real, log: real -> real, ghost z: seq<Logits>, local: seq<Logits>, starts: seq<int>,
                   target: seq<int>, cu: seq<nat>, ghost halves: seq<nat>, r: nat, cp: nat, chunking: Chunking)
    returns (ok: bool, probs: seq<real>)
    requires Ready(z, target, cu, halves, cp) && r < cp && Shaped(local, starts)
    requires local == Flatten(Locals(Pieces(z, cu, |cu| - 1), r, cp))
    requires chunking.Chunks? ==> 0 < chunking.size
    ensures ok == (chunking.Whole? || target != [])
    ensures ok ==> probs == Flatten(Locals(Direct(exp, log, z, target, cu), r, cp))
  {
    TargetsLie(target, cu, halves, r, cp);
    RankHoldsItsPart(exp, log, z, target, cu, r, cp);
    LocalsEmpty(z, target, cu, halves, r, cp);
    var rolled := RollTargets(target, cu, r, cp, Locals(RolledPieces(target, cu, |cu| - 1), r, cp));
    ok, probs := ApplyLogprob(exp, log, local, starts, rolled[..], chunking);
  }

  // ---------------------------------------------------------------- gathering the sequences

  lemma DirectLengths(exp: real -> real, log: real -> real, z: seq<Logits>, target: seq<int>, cu: seq<nat>,
                      halves: seq<nat>, cp: nat)
    requires Ready(z, target, cu, halves, cp)
    ensures CutAt(Direct(exp, log, z, target, cu), cu)
  {
    PieceLengths(z, cu, halves, cp);
  }

  /** Sequence `i` as the ranks hold it, in the order of the ranks. */
  function RankSlices(probs: seq<seq<real>>, lo: nat, hi: nat): (r: seq<seq<real>>)
    ensures |r| == |probs| && forall k :: 0 <= k < |r| ==> r[k] == Slice(probs[k], lo, hi)
  {
    seq(|probs|, k requires 0 <= k < |probs| => Slice(probs[k], lo, hi))
  }

  /** Gathering the ranks' slices of a sequence gives the whole sequence. */
  lemma GatherSequence(direct: seq<seq<real>>, probs: seq<seq<real>>, cu: seq<nat>, halves: seq<nat>, total: nat,
                       cp: nat, i: nat)
    requires IsCumulative(cu, halves, total, cp) && i < |direct| && CutAt(direct, cu)
    requires |probs| == cp > 1 && forall r :: 0 <= r < cp ==> probs[r] == Flatten(Locals(direct, r, cp))
    ensures Gathered(RankSlices(probs, Share(cu[i], cp), Share(cu[i + 1], cp))) == direct[i]
  {
    var slices := RankSlices(probs, Share(cu[i], cp), Share(cu[i + 1], cp));
    forall r | 0 <= r < cp ensures slices[r] == TokensOf(direct[i], r, cp) {
      LocalStart(direct, cu, halves, total, cp, r, i);
      LocalStart(direct, cu, halves, total, cp, r, i + 1);
      BlockAtOffset(Locals(direct, r, cp), i);
    }
    assert slices == Shards(direct[i], cp);
    PieceBounds(cu, halves, total, cp, i);
    GatherUndoesShard(direct[i], cp, halves[i]);
  }

  lemma {:induction false} DirectOffset(direct: seq<seq<real>>, cu: seq<nat>, n: nat)
    requires n <= |direct| && CutAt(direct, cu) && cu[0] == 0
    ensures |Flatten(direct[..n])| == cu[n]
  {
    if n > 0 {
      DirectOffset(direct, cu, n - 1);
      assert direct[..n][..n - 1] == direct[..n - 1];
    }
  }

  /** Sequence `i` can be gathered from the ranks and lies at cu[i]. */
  ghost predicate Gathers(direct: seq<seq<real>>, probs: seq<seq<real>>, cu: seq<nat>, total: nat, cp: nat, i: nat)
    requires 0 < cp && i < |direct| < |cu|
  {
    && Gathered(RankSlices(probs, Share(cu[i], cp), Share(cu[i + 1], cp))) == direct[i]
    && cu[i] == |Flatten(direct[..i])|
    && cu[i + 1] == |Flatten(direct[..i + 1])| == cu[i] + |direct[i]| <= total
    && Flatten(direct[..i + 1]) == Flatten(direct[..i]) + direct[i]
  }

  lemma SequenceLies(direct: seq<seq<real>>, cu: seq<nat>, i: nat)
    requires i < |direct| && CutAt(direct, cu) && cu[0] == 0
    ensures cu[i] == |Flatten(direct[..i])| && cu[i + 1] == |Flatten(direct[..i + 1])| == cu[i] + |direct[i]|
    ensures Flatten(direct[..i + 1]) == Flatten(direct[..i]) + direct[i]
  {
    DirectOffset(direct, cu, i);
    assert direct[..i + 1] == direct[..i] + [direct[i]];
    FlattenSnoc(direct[..i], direct[i]);
  }

  lemma SequencesGather(direct: seq<seq<real>>, probs: seq<seq<real>>, cu: seq<nat>, halves: seq<nat>, total: nat,
                        cp: nat)
    requires IsCumulative(cu, halves, total, cp) && CutAt(direct, cu)
    requires |probs| == cp > 1 && forall r :: 0 <= r < cp ==> probs[r] == Flatten(Locals(direct, r, cp))
    ensures forall i :: 0 <= i < |direct| ==> Gathers(direct, probs, cu, total, cp, i)
    ensures |Flatten(direct)| == total
  {
    forall i | 0 <= i < |direct| ensures Gathers(direct, probs, cu, total, cp, i) {
      GatherSequence(direct, probs, cu, halves, total, cp, i);
      PieceBounds(cu, halves, total, cp, i);
      SequenceLies(direct, cu, i);
    }
    DirectOffset(direct, cu, |direct|);
    assert direct[..|direct|] == direct;
  }

  method GatherSequences(ghost direct: seq<seq<real>>, probs: seq<seq<real>>, cu: seq<nat>, total: nat, cp: nat)
    returns (all: array<real>)
    requires 0 < cp && |cu| == |direct| + 1 && |Flatten(direct)| == total
    requires forall i :: 0 <= i < |direct| ==> Gathers(direct, probs, cu, total, cp, i)
    ensures fresh(all) && all[..] == Flatten(direct)
  {
    all := new real[total](_ => 0.0);
    ghost var done: seq<real> := [];
    for i := 0 to |cu| - 1
      invariant done == Flatten(direct[..i]) && |done| <= all.Length
      invariant all[..] == done + Fill(0.0, all.Length - |done|)
    {
      assert Gathers(direct, probs, cu, total, cp, i);
      var lo := Quotient(cu[i], cp);
      var hi := Quotient(cu[i + 1], cp);
      FlattenNext(direct, i);
      GatherOne(all, done, RankSlices(probs, lo, hi), cu[i], direct[i]);
      done := done + direct[i];
    }
    assert direct[..|direct|] == direct;
  }

  method GatherOne(all: array<real>, ghost before: seq<real>, slices: seq<seq<real>>, lo: nat, ghost whole: seq<real>)
    requires whole == Gathered(slices) && lo == |before| && lo + |whole| <= all.Length
    requires all[..] == before + Fill(0.0, all.Length - |before|)
    modifies all
    ensures all[..] == before + whole + Fill(0.0, all.Length - lo - |whole|)
  {
    ghost var now := all[..];
    var full := AllGather(slices);
    assert all[..] == now;
    AssignNext(all, before, 0.0, lo, full);
  }

  // ---------------------------------------------------------------- dropping the last token

  /** Row `i` of the result: all but the last position of the sequence, cut or zero-padded
      to `width`. */
  function Unpacked(seqProbs: seq<real>, width: nat): (r: seq<real>)
    ensures |r| == width
    ensures forall j :: 0 <= j < width ==> r[j] == if j + 1 < |seqProbs| then seqProbs[j] else 0.0
  {
    seq(width, j requires 0 <= j < width => if j + 1 < |seqProbs| then seqProbs[j] else 0.0)
  }

  method UnpackRow(probs: seq<real>, start: nat, end: nat, width: nat) returns (row: seq<real>)
    requires start <= end <= |probs|
    ensures row == Unpacked(probs[start..end], width)
  {
    var cells := new real[width](_ => 0.0);
    if end - start > 0 {
      var seqProbs := probs[start..end - 1];
      var len := Min(|seqProbs|, width);
      if len > 0 {
        AssignSlice(cells, 0, seqProbs[..len]);
      }
    }
    row := cells[..];
  }

  /** The whole function, on all context-parallel ranks together: whatever the number of
      ranks and with or without chunking, row `i` holds the unsharded log-probabilities of
      sequence `i` without its last position. */
  method PackedSequenceLogprobs(exp: real -> real, log: real -> real, ghost z: seq<Logits>, local: seq<seq<Logits>>,
                                starts: seq<int>, target: seq<int>, cu: seq<nat>, ghost halves: seq<nat>,
                                unpacked: nat, cp: nat, chunking: Chunking)
    returns (ok: bool, out: seq<seq<real>>)
    requires Ready(z, target, cu, halves, cp) && Spread(local, z, cu, starts, cp)
    requires 0 < unpacked && (chunking.Chunks? ==> 0 < chunking.size)
    ensures ok == (chunking.Whole? || target != [])
    ensures ok ==> |out| == |cu| - 1
    ensures ok ==> forall i :: 0 <= i < |out| ==>
              out[i] == Unpacked(Direct(exp, log, z, target, cu)[i], unpacked - 1)
  {
    ghost var direct := Direct(exp, log, z, target, cu);
    DirectLengths(exp, log, z, target, cu, halves, cp);
    var probs;
    ok, probs := AllRankProbs(exp, log, z, local, starts, target, cu, halves, cp, chunking, direct);
    if !ok {
      return false, [];
    }
    var all := WholeProbs(direct, probs, cu, halves, |target|, cp);
    out := UnpackAll(direct, all, cu, unpacked - 1);
  }

  method AllRankProbs(exp: real -> real, log: real -> real, ghost z: seq<Logits>, local: seq<seq<Logits>>,
                      starts: seq<int>,
                      target: seq<int>, cu: seq<nat>, ghost halves: seq<nat>, cp: nat, chunking: Chunking,
                      ghost direct: seq<seq<real>>)
    returns (ok: bool, probs: seq<seq<real>>)
    requires Ready(z, target, cu, halves, cp) && Spread(local, z, cu, starts, cp)
    requires direct == Direct(exp, log, z, target, cu)
    requires chunking.Chunks? ==> 0 < chunking.size
    ensures ok == (chunking.Whole? || target != [])
    ensures ok ==> probs == RankParts(direct, cp)
  {
    ghost var parts := RankParts(direct, cp);
    ok, probs := true, [];
    for r := 0 to cp
      invariant probs == parts[..r]
      invariant r > 0 ==> ok == (chunking.Whole? || target != [])
    {
      var p;
      ok, p := RankProbs(exp, log, z, local[r], starts, target, cu, halves, r, cp, chunking);
      if !ok {
        return;
      }
      PrefixSnoc(parts, r, p);
      probs := probs + [p];
    }
    assert parts[..cp] == parts;
  }

  lemma PrefixSnoc<T>(s: seq<T>, n: nat, x: T)
    requires n < |s| && x == s[n]
    ensures s[..n] + [x] == s[..n + 1]
  {}

  /** Every rank's part of the unsharded log-probabilities. */
  function RankParts(direct: seq<seq<real>>, cp: nat): (parts: seq<seq<real>>)
    ensures |parts| == cp && forall r :: 0 <= r < cp ==> parts[r] == Flatten(Locals(direct, r, cp))
  {
    seq(cp, r requires 0 <= r < cp => Flatten(Locals(direct, r, cp)))
  }

  /** With one rank the probabilities are whole already; otherwise they are gathered. */
  method WholeProbs(ghost direct: seq<seq<real>>, probs: seq<seq<real>>, cu: seq<nat>, ghost halves: seq<nat>,
                    total: nat, cp: nat) returns (all: seq<real>)
    requires IsCumulative(cu, halves, total, cp) && CutAt(direct, cu)
    requires probs == RankParts(direct, cp)
    ensures all == Flatten(direct)
  {
    if cp > 1 {
      SequencesGather(direct, probs, cu, halves, total, cp);
      var gathered := GatherSequences(direct, probs, cu, total, cp);
      all := gathered[..];
    } else {
      all := probs[0];
      assert Locals(direct, 0, 1) == direct;
    }
  }

  method UnpackAll(ghost direct: seq<seq<real>>, all: seq<real>, cu: seq<nat>, width: nat) returns (out: seq<seq<real>>)
    requires CutAt(direct, cu) && cu[0] == 0 && all == Flatten(direct)
    ensures |out| == |direct| && forall i :: 0 <= i < |out| ==> out[i] == Unpacked(direct[i], width)
  {
    out := [];
    for i := 0 to |cu| - 1
      invariant |out| == i && forall k :: 0 <= k < i ==> out[k] == Unpacked(direct[k], width)
    {
      DirectOffset(direct, cu, i);
      DirectOffset(direct, cu, i + 1);
      BlockAtOffset(direct, i);
      assert all[cu[i]..cu[i + 1]] == direct[i];
      var row := UnpackRow(all, cu[i], cu[i + 1], width);
      out := out + [row];
    }
  }

  /** In plain words: entry `j` of row `i` is the log-probability, at packed position
      cu[i] + j, of the token that follows it, for every position but the last of the
      sequence and within the row; every other entry is 0. */
  lemma UnpackedMeaning(exp: real -> real, log: real -> real, z: seq<Logits>, target: seq<int>, cu: seq<nat>,
                        halves: seq<nat>, cp: nat, i: nat, j: nat, width: nat)
    requires Ready(z, target, cu, halves, cp) && i < |halves| && j < width
    ensures cu[i] <= cu[i + 1] <= |target|
    ensures Unpacked(Direct(exp, log, z, target, cu)[i], width)[j]
         == if cu[i] + j + 1 < cu[i + 1] then PointLogprob(exp, log, z[cu[i] + j], target[cu[i] + j + 1]) else 0.0
  {
    PieceInside(cu, halves, |target|, cp, i);
    UnpackedAt(exp, log, z, target, cu, i, cu[i], cu[i + 1], j, width);
  }

  lemma UnpackedAt(exp: real -> real, log: real -> real, z: seq<Logits>, target: seq<int>, cu: seq<nat>, i: nat,
                   lo: nat, hi: nat, j: nat, width: nat)
    requires i + 1 < |cu| && |z| == |target| && lo == cu[i] && hi == cu[i + 1] && lo <= hi <= |target| && j < width
    ensures Unpacked(Direct(exp, log, z, target, cu)[i], width)[j]
         == if lo + j + 1 < hi then PointLogprob(exp, log, z[lo + j], target[lo + j + 1]) else 0.0
  {
    DirectAt(exp, log, z, target, cu, i, lo, hi);
    EntryAt(exp, log, z, target, lo, hi, j, width);
  }

  lemma DirectAt(exp: real -> real, log: real -> real, z: seq<Logits>, target: seq<int>, cu: seq<nat>, i: nat,
                 lo: nat, hi: nat)
    requires i + 1 < |cu| && |z| == |target| && lo == cu[i] && hi == cu[i + 1] && lo <= hi <= |target|
    ensures |Rolled(target[lo..hi])| == hi - lo
    ensures Direct(exp, log, z, target, cu)[i] == Logprobs(exp, log, z[lo..hi], Rolled(target[lo..hi]))
  {}

  lemma EntryAt(exp: real -> real, log: real -> real, z: seq<Logits>, target: seq<int>, lo: nat, hi: nat, j: nat,
                width: nat)
    requires lo <= hi <= |target| == |z| && j < width
    ensures |Rolled(target[lo..hi])| == hi - lo
    ensures Unpacked(Logprobs(exp, log, z[lo..hi], Rolled(target[lo..hi])), width)[j]
         == if lo + j + 1 < hi then PointLogprob(exp, log, z[lo + j], target[lo + j + 1]) else 0.0
  {}

  // ---------------------------------------------------------------- sequences that are not packed

  /** The part of one rank: its targets, shifted by one, padded and sharded like its logits. */
  method RankRow(exp: real -> real, log: real -> real, ghost z: seq<Logits>, local: seq<Logits>, starts: seq<int>,
                 padded: seq<int>, r: nat, cp: nat, chunking: Chunking) returns (ok: bool, p: seq<real>)
    requires |z| == |padded| && r < cp && Shaped(local, starts) && local == TokensOf(z, r, cp)
    requires chunking.Chunks? ==> 0 < chunking.size
    ensures ok == (chunking.Whole? || local != [])
    ensures ok ==> p == TokensOf(Logprobs(exp, log, z, padded), r, cp)
  {
    LogprobsTokens(exp, log, z, padded, r, cp);
    var mine := TokensOnThisRank(padded, r, cp);
    ok, p := ApplyLogprob(exp, log, local, starts, mine, chunking);
  }

  /** `from_parallel_logits_to_logprobs` on one row of the batch: entry `j` is the
      log-probability of token j + 1 at position `j`, whatever the padding, the number of
      ranks and the chunk size. */
  method RowLogprobs(exp: real -> real, log: real -> real, ghost z: seq<Logits>, local: seq<seq<Logits>>,
                     starts: seq<int>, target: seq<int>, pad: nat, cp: nat, ghost half: nat, chunking: Chunking)
    returns (ok: bool, out: seq<real>)
    requires 0 < cp == |local| && |z| == |target| + pad && (cp > 1 ==> |z| == 2 * cp * half)
    requires forall r :: 0 <= r < cp ==> Shaped(local[r], starts) && local[r] == TokensOf(z, r, cp)
    requires chunking.Chunks? ==> 0 < chunking.size
    ensures ok == (chunking.Whole? || z != [])
    ensures ok ==> |out| == if target == [] then 0 else |target| - 1
    ensures ok ==> forall j :: 0 <= j < |out| ==> out[j] == PointLogprob(exp, log, z[j], target[j + 1])
  {
    var padded := Rolled(target) + Fill(0, pad);
    ghost var whole := Logprobs(exp, log, z, padded);
    var ranks;
    ok, ranks := RowOnRanks(exp, log, z, local, starts, padded, cp, half, chunking);
    if !ok {
      return false, [];
    }
    var all := GatherRow(whole, ranks, cp, half);
    var unpadded := all[..|target|];
    out := if unpadded == [] then [] else unpadded[..|unpadded| - 1];
  }

  method RowOnRanks(exp: real -> real, log: real -> real, ghost z: seq<Logits>, local: seq<seq<Logits>>,
                    starts: seq<int>, padded: seq<int>, cp: nat, ghost half: nat, chunking: Chunking)
    returns (ok: bool, ranks: seq<seq<real>>)
    requires 0 < cp == |local| && |z| == |padded| && (cp > 1 ==> |z| == 2 * cp * half)
    requires forall r :: 0 <= r < cp ==> Shaped(local[r], starts) && local[r] == TokensOf(z, r, cp)
    requires chunking.Chunks? ==> 0 < chunking.size
    ensures ok == (chunking.Whole? || z != [])
    ensures ok ==> ranks == Shards(Logprobs(exp, log, z, padded), cp)
  {
    ghost var whole := Logprobs(exp, log, z, padded);
    ok, ranks := true, [];
    for r := 0 to cp
      invariant r > 0 ==> ok == (chunking.Whole? || z != [])
      invariant |ranks| == r && forall k :: 0 <= k < r ==> ranks[k] == TokensOf(whole, k, cp)
    {
      RankEmptyIff(z, cp, half, r);
      var p;
      ok, p := RankRow(exp, log, z, local[r], starts, padded, r, cp, chunking);
      if !ok {
        return;
      }
      ranks := ranks + [p];
    }
  }

  method GatherRow(ghost whole: seq<real>, ranks: seq<seq<real>>, cp: nat, ghost half: nat) returns (all: seq<real>)
    requires 0 < cp && (cp > 1 ==> |whole| == 2 * cp * half) && ranks == Shards(whole, cp)
    ensures all == whole
  {
    if cp > 1 {
      GatherUndoesShard(whole, cp, half);
      all := AllGather(ranks);
    } else {
      all := ranks[0];
    }
  }

  lemma RankEmptyIff<T>(z: seq<T>, cp: nat, half: nat, r: nat)
    requires r < cp && (cp > 1 ==> |z| == 2 * cp * half)
    ensures TokensOf(z, r, cp) == [] <==> z == []
  {
    LocalLength(z, half, r, cp);
  }
}
