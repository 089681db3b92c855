/** The negative log-likelihood of packed sequences, one sequence at a time
    (`SequencePackingLossWrapper` over `NLLLoss`, nemo_rl/algorithms/loss_functions.py).
    `lp(z, t)` is the log-probability of token `t` under the logits `z` of one position. */
module PackedLoss {
  import opened Lists
  import opened Reals

  /** One row of the unpacked data. */
  datatype Example = Example(ids: seq<int>, mask: seq<real>, sample: real)

  predicate SameWidth(rows: seq<Example>, width: nat) {
    forall i :: 0 <= i < |rows| ==> |rows[i].ids| == |rows[i].mask| == width
  }

  /** Sum of the masked log-probabilities of the next tokens at positions lo, ..., hi - 1. */
  function TokenSum<Z>(lp: (Z, int) -> real, z: seq<Z>, row: Example, lo: nat, hi: nat): real
    requires lo <= hi && |row.mask| == |row.ids|
    requires hi > lo ==> hi <= |z| && hi < |row.ids|
    decreases hi - lo
  {
    if lo == hi then 0.0
    else TokenSum(lp, z, row, lo, hi - 1) + lp(z[hi - 1], row.ids[hi]) * (row.mask[hi] * row.sample)
  }

  /** Positions with a next token. */
  function Positions(row: Example): nat { if row.ids == [] then 0 else |row.ids| - 1 }

  function MaskSum(row: Example, n: nat): real
    requires n < |row.mask| || n == 0
  {
    if n == 0 then 0.0 else MaskSum(row, n - 1) + row.mask[n] * row.sample
  }

  /** masked_mean with a global normaliser, negated; eps stands for its 1e-8. */
  function Normalised(sum: real, norm: real, eps: real): real
    requires norm + eps != 0.0
  {
    -sum / (norm + eps)
  }

  /** `NLLLoss` on one row. There may be more logits than tokens, never fewer. */
  function RowLoss<Z>(lp: (Z, int) -> real, z: seq<Z>, row: Example, norm: real, eps: real): real
    requires |row.mask| == |row.ids| && (Positions(row) == 0 || Positions(row) < |z|) && norm + eps != 0.0
  {
    Normalised(TokenSum(lp, z, row, 0, Positions(row)), norm, eps)
  }

  /** The token sums of all rows of a padded batch. */
  function BatchSum<Z>(lp: (Z, int) -> real, z: seq<seq<Z>>, rows: seq<Example>, width: nat): real
    requires |z| == |rows| && SameWidth(rows, width) && AllOfLength(z, width)
  {
    if rows == [] then 0.0
    else
      var m := |rows| - 1;
      BatchSum(lp, z[..m], rows[..m], width) + TokenSum(lp, z[m], rows[m], 0, Positions(rows[m]))
  }

  /** `NLLLoss` on the whole padded batch. */
  function PaddedLoss<Z>(lp: (Z, int) -> real, z: seq<seq<Z>>, rows: seq<Example>, width: nat, norm: real,
                         eps: real): real
    requires |z| == |rows| && SameWidth(rows, width) && AllOfLength(z, width) && norm + eps != 0.0
  {
    Normalised(BatchSum(lp, z, rows, width), norm, eps)
  }

  // ---------------------------------------------------------------- the wrapper

  /** Cuts the two-dimensional tensors of a row to the sequence's own length. */
  function Unpad(row: Example, len: nat): (r: Example)
    requires |row.mask| == |row.ids|
    ensures |r.mask| == |r.ids|
  {
    if |row.ids| > 1 then Example(Slice(row.ids, 0, len), Slice(row.mask, 0, len), row.sample) else row
  }

  /** cu and padded are cumulative lengths, the padded ones the positions in the packed
      logits; every sequence has room for its tokens. */
  ghost predicate Layout(cu: seq<nat>, padded: seq<nat>, n: nat, total: nat) {
    && |cu| == |padded| == n + 1
    && forall i :: 0 <= i < n ==> LaidOut(cu[i], cu[i + 1], padded[i], padded[i + 1], total)
  }

  ghost predicate LaidOut(start: nat, end: nat, from: nat, to: nat, total: nat) {
    start <= end && end - start <= to - from && from <= to <= total
  }

  datatype Metrics = Metrics(loss: real, unmasked: real, samples: real)

  /** The loss of one sequence on its own slice of the logits. */
  method OneLoss<Z>(lp: (Z, int) -> real, slice: seq<Z>, row: Example, len: nat, norm: real, eps: real)
    returns (loss: real, unmasked: real)
    requires |row.mask| == |row.ids| && len <= |slice| && norm + eps != 0.0
    ensures loss == Normalised(OwnSum(lp, slice, row, len), norm, eps)
    ensures unmasked == OwnMask(row, len)
  {
    var cut := Unpad(row, len);
    loss, unmasked := RowLoss(lp, slice, cut, norm, eps), MaskSum(cut, Positions(cut));
  }

  /** The token sum of one sequence. */
  function OwnSum<Z>(lp: (Z, int) -> real, slice: seq<Z>, row: Example, len: nat): real
    requires |row.mask| == |row.ids| && len <= |slice|
  {
    TokenSum(lp, slice, Unpad(row, len), 0, Positions(Unpad(row, len)))
  }

  /** Its unmasked tokens. */
  function OwnMask(row: Example, len: nat): real
    requires |row.mask| == |row.ids|
  {
    MaskSum(Unpad(row, len), Positions(Unpad(row, len)))
  }

  /** The unmasked tokens of the first `n` sequences, each cut to its own length. */
  function PackedMask(rows: seq<Example>, width: nat, cu: seq<nat>, n: nat): real
    requires n <= |rows| && SameWidth(rows, width) && Ascends(cu, |rows|)
  {
    if n == 0 then 0.0 else PackedMask(rows, width, cu, n - 1) + OwnMask(rows[n - 1], cu[n] - cu[n - 1])
  }

  predicate Ascends(cu: seq<nat>, n: nat) { |cu| == n + 1 && forall i :: 0 <= i < n ==> cu[i] <= cu[i + 1] }

  function SampleSum(rows: seq<Example>, n: nat): real
    requires n <= |rows|
  {
    if n == 0 then 0.0 else SampleSum(rows, n - 1) + rows[n - 1].sample
  }

  /** The packed loss: the losses of the sequences, summed. */
  method WrappedLoss<Z>(lp: (Z, int) -> real, logits: seq<Z>, rows: seq<Example>, width: nat, cu: seq<nat>,
                        padded: seq<nat>, norm: real, eps: real) returns (loss: real, metrics: Metrics)
    requires SameWidth(rows, width) && Layout(cu, padded, |rows|, |logits|) && norm + eps != 0.0
    ensures loss == Normalised(PackedSum(lp, logits, rows, width, cu, padded, |rows|), norm, eps)
    ensures Ascends(cu, |rows|)
    ensures metrics == Metrics(loss, PackedMask(rows, width, cu, |rows|), SampleSum(rows, |rows|))
    ensures LossOfTerms(lp, logits, rows, width, cu, padded, norm, eps, metrics)
  {
    LayoutIncreases(cu, padded, |rows|, |logits|);
    loss, metrics := 0.0, Metrics(0.0, 0.0, 0.0);
    for i := 0 to |rows|
      invariant loss == Normalised(PackedSum(lp, logits, rows, width, cu, padded, i), norm, eps)
      invariant metrics == Metrics(loss, PackedMask(rows, width, cu, i), SampleSum(rows, i))
    {
      var one := SequenceLoss(lp, logits, rows, width, cu, padded, i, norm, eps);
      loss := loss + one.loss;
      metrics := Metrics(metrics.loss + one.loss, metrics.unmasked + one.unmasked, metrics.samples + one.samples);
    }
    PackedLossMeans(lp, logits, rows, width, cu, padded, norm, eps, metrics);
  }

  /** The metrics of sequence `i` are what the sums grow by. */
  method SequenceLoss<Z>(lp: (Z, int) -> real, logits: seq<Z>, rows: seq<Example>, width: nat, cu: seq<nat>,
                         padded: seq<nat>, i: nat, norm: real, eps: real) returns (one: Metrics)
    requires i < |rows| && SameWidth(rows, width) && Layout(cu, padded, |rows|, |logits|) && norm + eps != 0.0
    requires Ascends(cu, |rows|)
    ensures Normalised(PackedSum(lp, logits, rows, width, cu, padded, i), norm, eps) + one.loss
         == Normalised(PackedSum(lp, logits, rows, width, cu, padded, i + 1), norm, eps)
    ensures PackedMask(rows, width, cu, i) + one.unmasked == PackedMask(rows, width, cu, i + 1)
    ensures one.samples == rows[i].sample
  {
    assert LaidOut(cu[i], cu[i + 1], padded[i], padded[i + 1], |logits|);
    var loss, unmasked := OneLoss(lp, logits[padded[i]..padded[i + 1]], rows[i], cu[i + 1] - cu[i], norm, eps);
    NextLoss(lp, logits, rows, width, cu, padded, i, norm, eps);
    one := Metrics(loss, unmasked, rows[i].sample);
  }

  lemma NextSum<Z>(lp: (Z, int) -> real, logits: seq<Z>, rows: seq<Example>, width: nat, cu: seq<nat>,
                   padded: seq<nat>, i: nat)
    requires i < |rows| && SameWidth(rows, width) && Layout(cu, padded, |rows|, |logits|)
    ensures LaidOut(cu[i], cu[i + 1], padded[i], padded[i + 1], |logits|)
    ensures PackedSum(lp, logits, rows, width, cu, padded, i + 1)
         == PackedSum(lp, logits, rows, width, cu, padded, i)
          + OwnSum(lp, logits[padded[i]..padded[i + 1]], rows[i], cu[i + 1] - cu[i])
  {
    assert LaidOut(cu[i], cu[i + 1], padded[i], padded[i + 1], |logits|);
  }

  lemma NextLoss<Z>(lp: (Z, int) -> real, logits: seq<Z>, rows: seq<Example>, width: nat, cu: seq<nat>,
                    padded: seq<nat>, i: nat, norm: real, eps: real)
    requires i < |rows| && SameWidth(rows, width) && Layout(cu, padded, |rows|, |logits|) && norm + eps != 0.0
    ensures LaidOut(cu[i], cu[i + 1], padded[i], padded[i + 1], |logits|)
    ensures Normalised(PackedSum(lp, logits, rows, width, cu, padded, i + 1), norm, eps)
         == Normalised(PackedSum(lp, logits, rows, width, cu, padded, i), norm, eps)
          + Normalised(OwnSum(lp, logits[padded[i]..padded[i + 1]], rows[i], cu[i + 1] - cu[i]), norm, eps)
  {
    NextSum(lp, logits, rows, width, cu, padded, i);
    AddNormalised(PackedSum(lp, logits, rows, width, cu, padded, i),
                  OwnSum(lp, logits[padded[i]..padded[i + 1]], rows[i], cu[i + 1] - cu[i]), norm, eps);
  }

  lemma AddNormalised(a: real, b: real, norm: real, eps: real)
    requires norm + eps != 0.0
    ensures Normalised(a, norm, eps) + Normalised(b, norm, eps) == Normalised(a + b, norm, eps)
  {}

  /** The token sums of the first `n` sequences, each on its slice. */
  function PackedSum<Z>(lp: (Z, int) -> real, logits: seq<Z>, rows: seq<Example>, width: nat, cu: seq<nat>,
                        padded: seq<nat>, n: nat): real
    requires n <= |rows| && SameWidth(rows, width) && Layout(cu, padded, |rows|, |logits|)
  {
    if n == 0 then 0.0
    else
      var i := n - 1;
      assert LaidOut(cu[i], cu[i + 1], padded[i], padded[i + 1], |logits|);
      PackedSum(lp, logits, rows, width, cu, padded, i)
      + OwnSum(lp, logits[padded[i]..padded[i + 1]], rows[i], cu[i + 1] - cu[i])
  }

  // ---------------------------------------------------------------- packed against padded

  /** The model gives a packed sequence the logits it gives the padded one, as far as the
      sequence goes; past it the padded logits are arbitrary. */
  ghost predicate SameLogits<Z>(logits: seq<Z>, z: seq<seq<Z>>, width: nat, cu: seq<nat>, padded: seq<nat>)
    requires Layout(cu, padded, |z|, |logits|) && AllOfLength(z, width)
  {
    forall i :: 0 <= i < |z| ==> AgreesAt(logits, z[i], cu[i + 1] - cu[i], padded[i])
  }

  predicate AgreesAt<Z(==)>(logits: seq<Z>, zi: seq<Z>, len: int, from: nat) {
    forall j :: 0 <= j < len && j < |zi| && from + j < |logits| ==> zi[j] == logits[from + j]
  }

  /** What the padded loss counts of a row past the sequence's own tokens. */
  function Tail<Z>(lp: (Z, int) -> real, z: seq<Z>, row: Example, len: nat): real
    requires |row.mask| == |row.ids| == |z|
  {
    if len >= |row.ids| then 0.0 else TokenSum(lp, z, row, if len == 0 then 0 else len - 1, |row.ids| - 1)
  }

  function Tails<Z>(lp: (Z, int) -> real, z: seq<seq<Z>>, rows: seq<Example>, width: nat, cu: seq<nat>, n: nat): real
    requires n <= |rows| == |z| && SameWidth(rows, width) && AllOfLength(z, width)
    requires Ascends(cu, |rows|)
  {
    if n == 0 then 0.0
    else Tails(lp, z, rows, width, cu, n - 1) + Tail(lp, z[n - 1], rows[n - 1], cu[n] - cu[n - 1])
  }

  lemma {:induction false} SumSplits<Z>(lp: (Z, int) -> real, z: seq<Z>, row: Example, mid: nat, hi: nat)
    requires mid <= hi && |row.mask| == |row.ids| && (hi > 0 ==> hi <= |z| && hi < |row.ids|)
    ensures TokenSum(lp, z, row, 0, hi) == TokenSum(lp, z, row, 0, mid) + TokenSum(lp, z, row, mid, hi)
    decreases hi - mid
  {
    if mid < hi { SumSplits(lp, z, row, mid, hi - 1); }
  }

  lemma {:induction false} SumAgrees<Z>(lp: (Z, int) -> real, z: seq<Z>, row: Example, y: seq<Z>, cut: Example, n: nat)
    requires |row.mask| == |row.ids| && |cut.mask| == |cut.ids| && row.sample == cut.sample
    requires n > 0 ==> n <= |z| && n <= |y| && n < |row.ids| && n < |cut.ids|
    requires forall j :: 0 <= j < n ==> z[j] == y[j]
    requires forall j :: 0 <= j <= n && n > 0 ==> row.ids[j] == cut.ids[j] && row.mask[j] == cut.mask[j]
    ensures TokenSum(lp, z, row, 0, n) == TokenSum(lp, y, cut, 0, n)
  {
    if n > 0 { SumAgrees(lp, z, row, y, cut, n - 1); }
  }

  /** One sequence: the padded row counts what the packed slice counts, and its tail. */
  lemma RowDiffersByTail<Z>(lp: (Z, int) -> real, z: seq<Z>, row: Example, slice: seq<Z>, len: nat)
    requires |row.mask| == |row.ids| == |z| && len <= |slice|
    requires forall j :: 0 <= j < len && j < |z| ==> z[j] == slice[j]
    ensures TokenSum(lp, z, row, 0, Positions(row)) == OwnSum(lp, slice, row, len) + Tail(lp, z, row, len)
  {
    var cut := Unpad(row, len);
    var n := Positions(cut);
    if |row.ids| > 1 {
      SumSplits(lp, z, row, n, Positions(row));
      SumAgrees(lp, z, row, slice, cut, n);
    }
  }

  lemma RowOfBatch<Z>(lp: (Z, int) -> real, logits: seq<Z>, zi: seq<Z>, row: Example, start: nat, end: nat, from: nat,
                      to: nat)
    requires |row.mask| == |row.ids| == |zi| && LaidOut(start, end, from, to, |logits|)
    requires AgreesAt(logits, zi, end - start, from)
    ensures TokenSum(lp, zi, row, 0, Positions(row))
         == OwnSum(lp, logits[from..to], row, end - start) + Tail(lp, zi, row, end - start)
  {
    RowDiffersByTail(lp, zi, row, logits[from..to], end - start);
  }

  lemma LayoutIncreases(cu: seq<nat>, padded: seq<nat>, n: nat, total: nat)
    requires Layout(cu, padded, n, total)
    ensures Ascends(cu, n)
  {
    forall i | 0 <= i < n ensures cu[i] <= cu[i + 1] {
      assert LaidOut(cu[i], cu[i + 1], padded[i], padded[i + 1], total);
    }
  }

  lemma NextBatchSum<Z>(lp: (Z, int) -> real, z: seq<seq<Z>>, rows: seq<Example>, width: nat, i: nat)
    requires i < |rows| == |z| && SameWidth(rows, width) && AllOfLength(z, width)
    ensures BatchSum(lp, z[..i + 1], rows[..i + 1], width)
         == BatchSum(lp, z[..i], rows[..i], width) + TokenSum(lp, z[i], rows[i], 0, Positions(rows[i]))
  {
    assert z[..i + 1][..i] == z[..i] && rows[..i + 1][..i] == rows[..i];
  }

  lemma {:induction false} SumsDifferByTails<Z>(lp: (Z, int) -> real, logits: seq<Z>, z: seq<seq<Z>>,
                                                rows: seq<Example>, width: nat, cu: seq<nat>, padded: seq<nat>, n: nat)
    requires n <= |rows| == |z| && SameWidth(rows, width) && AllOfLength(z, width)
    requires Layout(cu, padded, |rows|, |logits|) && SameLogits(logits, z, width, cu, padded)
    ensures Ascends(cu, |rows|)
    ensures BatchSum(lp, z[..n], rows[..n], width)
         == PackedSum(lp, logits, rows, width, cu, padded, n) + Tails(lp, z, rows, width, cu, n)
  {
    LayoutIncreases(cu, padded, |rows|, |logits|);
    if n == 0 {
      assert z[..0] == [] && rows[..0] == [];
    } else {
      var i := n - 1;
      SumsDifferByTails(lp, logits, z, rows, width, cu, padded, i);
      RowAddsTail(lp, logits, z, rows, width, cu, padded, i);
    }
  }

  lemma RowAddsTail<Z>(lp: (Z, int) -> real, logits: seq<Z>, z: seq<seq<Z>>, rows: seq<Example>, width: nat,
                       cu: seq<nat>, padded: seq<nat>, i: nat)
    requires i < |rows| == |z| && SameWidth(rows, width) && AllOfLength(z, width) && Ascends(cu, |rows|)
    requires Layout(cu, padded, |rows|, |logits|) && SameLogits(logits, z, width, cu, padded)
    ensures BatchSum(lp, z[..i + 1], rows[..i + 1], width) - BatchSum(lp, z[..i], rows[..i], width)
         == PackedSum(lp, logits, rows, width, cu, padded, i + 1) - PackedSum(lp, logits, rows, width, cu, padded, i)
          + Tails(lp, z, rows, width, cu, i + 1) - Tails(lp, z, rows, width, cu, i)
  {
    NextSum(lp, logits, rows, width, cu, padded, i);
    NextBatchSum(lp, z, rows, width, i);
    assert AgreesAt(logits, z[i], cu[i + 1] - cu[i], padded[i]);
    RowOfBatch(lp, logits, z[i], rows[i], cu[i], cu[i + 1], padded[i], padded[i + 1]);
  }

  /** In general the padded loss exceeds the packed one by exactly the masked tokens past the
      sequences' ends. */
  lemma PaddedIsPackedPlusTails<Z>(lp: (Z, int) -> real, logits: seq<Z>, z: seq<seq<Z>>, rows: seq<Example>,
                                   width: nat, cu: seq<nat>, padded: seq<nat>, norm: real, eps: real)
    requires |rows| == |z| && SameWidth(rows, width) && AllOfLength(z, width) && norm + eps != 0.0
    requires Layout(cu, padded, |rows|, |logits|) && SameLogits(logits, z, width, cu, padded)
    ensures Ascends(cu, |rows|)
    ensures PaddedLoss(lp, z, rows, width, norm, eps)
         == Normalised(PackedSum(lp, logits, rows, width, cu, padded, |rows|), norm, eps)
          + Normalised(Tails(lp, z, rows, width, cu, |rows|), norm, eps)
  {
    SumsDifferByTails(lp, logits, z, rows, width, cu, padded, |rows|);
    assert z[..|rows|] == z && rows[..|rows|] == rows;
    AddNormalised(PackedSum(lp, logits, rows, width, cu, padded, |rows|), Tails(lp, z, rows, width, cu, |rows|),
                  norm, eps);
  }

  /** The mask is zero past each sequence's length. */
  predicate MaskEnds(rows: seq<Example>, cu: seq<nat>) {
    |cu| == |rows| + 1 && forall i :: 0 <= i < |rows| ==> ZeroFrom(rows[i].mask, (cu[i + 1] as int) - cu[i])
  }

  predicate ZeroFrom(mask: seq<real>, len: int) {
    forall j :: 0 <= j < |mask| && len <= j ==> mask[j] == 0.0
  }

  lemma {:induction false} ZeroMaskZeroSum<Z>(lp: (Z, int) -> real, z: seq<Z>, row: Example, lo: nat, hi: nat)
    requires lo <= hi && |row.mask| == |row.ids| && (hi > lo ==> hi <= |z| && hi < |row.ids|)
    requires forall j :: lo < j <= hi && j < |row.mask| ==> row.mask[j] == 0.0
    ensures TokenSum(lp, z, row, lo, hi) == 0.0
    decreases hi - lo
  {
    if lo < hi { ZeroMaskZeroSum(lp, z, row, lo, hi - 1); }
  }

  lemma {:induction false} NoTails<Z>(lp: (Z, int) -> real, z: seq<seq<Z>>, rows: seq<Example>, width: nat,
                                      cu: seq<nat>, n: nat)
    requires n <= |rows| == |z| && SameWidth(rows, width) && AllOfLength(z, width) && MaskEnds(rows, cu)
    requires Ascends(cu, |rows|)
    ensures Tails(lp, z, rows, width, cu, n) == 0.0
  {
    if n > 0 {
      var len := cu[n] - cu[n - 1];
      NoTails(lp, z, rows, width, cu, n - 1);
      assert ZeroFrom(rows[n - 1].mask, len);
      if len < width {
        ZeroMaskZeroSum(lp, z[n - 1], rows[n - 1], if len == 0 then 0 else len - 1, width - 1);
      }
    }
  }

  lemma ZeroIsNothing(norm: real, eps: real)
    requires norm + eps != 0.0
    ensures Normalised(0.0, norm, eps) == 0.0
  {}

  /** Packing does not change the loss when the mask is zero past each sequence's length. */
  lemma PackedIsPadded<Z>(lp: (Z, int) -> real, logits: seq<Z>, z: seq<seq<Z>>, rows: seq<Example>,
                          width: nat, cu: seq<nat>, padded: seq<nat>, norm: real, eps: real)
    requires |rows| == |z| && SameWidth(rows, width) && AllOfLength(z, width) && norm + eps != 0.0
    requires Layout(cu, padded, |rows|, |logits|) && SameLogits(logits, z, width, cu, padded)
    requires MaskEnds(rows, cu)
    ensures PaddedLoss(lp, z, rows, width, norm, eps)
         == Normalised(PackedSum(lp, logits, rows, width, cu, padded, |rows|), norm, eps)
  {
    PaddedIsPackedPlusTails(lp, logits, z, rows, width, cu, padded, norm, eps);
    ZeroIsNothing(norm, eps);
    NoTails(lp, z, rows, width, cu, |rows|);
  }

  // ---------------------------------------------------------------- the reported token counts

  /** The unmasked tokens of the padded batch. */
  function BatchMask(rows: seq<Example>, width: nat, n: nat): real
    requires n <= |rows| && SameWidth(rows, width)
  {
    if n == 0 then 0.0 else BatchMask(rows, width, n - 1) + MaskSum(rows[n - 1], Positions(rows[n - 1]))
  }

  lemma {:induction false} MaskSumAgrees(row: Example, cut: Example, n: nat)
    requires row.sample == cut.sample && (n > 0 ==> n < |row.mask| && n < |cut.mask|)
    requires forall j :: 0 < j <= n ==> row.mask[j] == cut.mask[j]
    ensures MaskSum(row, n) == MaskSum(cut, n)
  {
    if n > 0 { MaskSumAgrees(row, cut, n - 1); }
  }

  lemma {:induction false} MaskSumStops(row: Example, n: nat, m: nat)
    requires n <= m && (m > 0 ==> m < |row.mask|)
    requires forall j :: n < j <= m ==> row.mask[j] == 0.0
    ensures MaskSum(row, m) == MaskSum(row, n)
    decreases m
  {
    if n < m { MaskSumStops(row, n, m - 1); }
  }

  /** A mask that is zero past the sequence's length loses nothing when the row is cut. */
  lemma OwnMaskIsRowMask(row: Example, len: nat)
    requires |row.mask| == |row.ids| && ZeroFrom(row.mask, len)
    ensures OwnMask(row, len) == MaskSum(row, Positions(row))
  {
    var cut := Unpad(row, len);
    if |row.ids| > 1 {
      MaskSumAgrees(row, cut, Positions(cut));
      MaskSumStops(row, Positions(cut), Positions(row));
    }
  }

  /** The number of unmasked tokens the wrapper reports is that of the padded batch. */
  lemma {:induction false} SameTokenCount(rows: seq<Example>, width: nat, cu: seq<nat>, n: nat)
    requires n <= |rows| && SameWidth(rows, width) && MaskEnds(rows, cu) && Ascends(cu, |rows|)
    ensures PackedMask(rows, width, cu, n) == BatchMask(rows, width, n)
  {
    if n > 0 {
      SameTokenCount(rows, width, cu, n - 1);
      assert ZeroFrom(rows[n - 1].mask, (cu[n] as int) - cu[n - 1]);
      OwnMaskIsRowMask(rows[n - 1], cu[n] - cu[n - 1]);
    }
  }

  // ---------------------------------------------------------------- the loss, term by term

  /** The masked log-probability of the next token at each of `n` positions, whose logits
      start at `from`. */
  function NextTokenTerms<Z>(lp: (Z, int) -> real, z: seq<Z>, from: nat, row: Example, n: nat): (r: seq<real>)
    requires |row.mask| == |row.ids| && from + n <= |z| && (n > 0 ==> n < |row.ids|)
    ensures |r| == n
    ensures forall j :: 0 <= j < n ==> r[j] == lp(z[from + j], row.ids[j + 1]) * (row.mask[j + 1] * row.sample)
  {
    seq(n, j requires 0 <= j < n => lp(z[from + j], row.ids[j + 1]) * (row.mask[j + 1] * row.sample))
  }

  lemma {:induction false} TokenSumIsTotal<Z>(lp: (Z, int) -> real, z: seq<Z>, row: Example, n: nat)
    requires |row.mask| == |row.ids| && n <= |z| && (n > 0 ==> n < |row.ids|)
    ensures TokenSum(lp, z, row, 0, n) == Total(NextTokenTerms(lp, z, 0, row, n))
  {
    if n > 0 {
      TokenSumIsTotal(lp, z, row, n - 1);
      assert NextTokenTerms(lp, z, 0, row, n)[..n - 1] == NextTokenTerms(lp, z, 0, row, n - 1);
    }
  }

  /** Positions of a sequence of length `len` that have a next token of their own. */
  function OwnPositions(row: Example, len: nat): nat { Max(0, Min(len, |row.ids|) - 1) }

  lemma OwnTerms<Z>(lp: (Z, int) -> real, logits: seq<Z>, row: Example, len: nat, from: nat, to: nat)
    requires |row.mask| == |row.ids| && from <= to <= |logits| && len <= to - from
    ensures OwnSum(lp, logits[from..to], row, len)
         == Total(NextTokenTerms(lp, logits, from, row, OwnPositions(row, len)))
  {
    var cut, n, slice := Unpad(row, len), OwnPositions(row, len), logits[from..to];
    TokenSumIsTotal(lp, slice, cut, n);
    forall j | 0 <= j < n ensures SameAt(slice, 0, logits, from, j) {}
    SameTerms(lp, slice, 0, cut, logits, from, row, n);
  }

  ghost predicate SameAt<Z>(z: seq<Z>, a: nat, y: seq<Z>, b: nat, j: nat) {
    a + j < |z| && b + j < |y| && z[a + j] == y[b + j]
  }

  lemma SameTerms<Z>(lp: (Z, int) -> real, z: seq<Z>, a: nat, x: Example, y: seq<Z>, b: nat, w: Example, n: nat)
    requires |x.mask| == |x.ids| && a + n <= |z| && (n > 0 ==> n < |x.ids|)
    requires |w.mask| == |w.ids| && b + n <= |y| && (n > 0 ==> n < |w.ids|)
    requires x.sample == w.sample && forall j :: 0 <= j < n ==> SameAt(z, a, y, b, j)
    requires forall j :: 0 < j <= n ==> x.ids[j] == w.ids[j] && x.mask[j] == w.mask[j]
    ensures NextTokenTerms(lp, z, a, x, n) == NextTokenTerms(lp, y, b, w, n)
  {
    forall j | 0 <= j < n ensures NextTokenTerms(lp, z, a, x, n)[j] == NextTokenTerms(lp, y, b, w, n)[j] {
      assert x.ids[j + 1] == w.ids[j + 1] && x.mask[j + 1] == w.mask[j + 1];
      assert SameAt(z, a, y, b, j);
    }
  }

  /** The terms of the first `n` sequences, each at its own place in the packed logits. */
  function PackedTerms<Z>(lp: (Z, int) -> real, logits: seq<Z>, rows: seq<Example>, width: nat, cu: seq<nat>,
                          padded: seq<nat>, n: nat): (r: seq<seq<real>>)
    requires n <= |rows| && SameWidth(rows, width) && Layout(cu, padded, |rows|, |logits|)
    ensures |r| == n && Ascends(cu, |rows|)
    ensures forall i :: 0 <= i < n ==> LaidOut(cu[i], cu[i + 1], padded[i], padded[i + 1], |logits|)
    ensures forall i :: 0 <= i < n ==>
              r[i] == NextTokenTerms(lp, logits, padded[i], rows[i], OwnPositions(rows[i], cu[i + 1] - cu[i]))
  {
    LayoutIncreases(cu, padded, |rows|, |logits|);
    if n == 0 then []
    else
      var i := n - 1;
      assert LaidOut(cu[i], cu[i + 1], padded[i], padded[i + 1], |logits|);
      PackedTerms(lp, logits, rows, width, cu, padded, i)
      + [NextTokenTerms(lp, logits, padded[i], rows[i], OwnPositions(rows[i], cu[i + 1] - cu[i]))]
  }

  lemma PackedTermsSnoc<Z>(lp: (Z, int) -> real, logits: seq<Z>, rows: seq<Example>, width: nat, cu: seq<nat>,
                           padded: seq<nat>, i: nat, last: seq<real>)
    requires i < |rows| && SameWidth(rows, width) && Layout(cu, padded, |rows|, |logits|)
    requires last == PackedTerms(lp, logits, rows, width, cu, padded, i + 1)[i]
    ensures PackedTerms(lp, logits, rows, width, cu, padded, i + 1)
         == PackedTerms(lp, logits, rows, width, cu, padded, i) + [last]
  {}

  lemma LastTerms<Z>(lp: (Z, int) -> real, logits: seq<Z>, rows: seq<Example>, width: nat, cu: seq<nat>,
                     padded: seq<nat>, i: nat)
    requires i < |rows| && SameWidth(rows, width) && Layout(cu, padded, |rows|, |logits|)
    ensures LaidOut(cu[i], cu[i + 1], padded[i], padded[i + 1], |logits|)
    ensures OwnSum(lp, logits[padded[i]..padded[i + 1]], rows[i], cu[i + 1] - cu[i])
         == Total(PackedTerms(lp, logits, rows, width, cu, padded, i + 1)[i])
  {
    assert LaidOut(cu[i], cu[i + 1], padded[i], padded[i + 1], |logits|);
    OwnTerms(lp, logits, rows[i], cu[i + 1] - cu[i], padded[i], padded[i + 1]);
  }

  lemma {:induction false} PackedSumIsTotal<Z>(lp: (Z, int) -> real, logits: seq<Z>, rows: seq<Example>, width: nat,
                                               cu: seq<nat>, padded: seq<nat>, n: nat)
    requires n <= |rows| && SameWidth(rows, width) && Layout(cu, padded, |rows|, |logits|)
    ensures PackedSum(lp, logits, rows, width, cu, padded, n)
         == Total(Flatten(PackedTerms(lp, logits, rows, width, cu, padded, n)))
  {
    if n > 0 {
      var i := n - 1;
      var last := PackedTerms(lp, logits, rows, width, cu, padded, n)[i];
      PackedSumIsTotal(lp, logits, rows, width, cu, padded, i);
      NextSum(lp, logits, rows, width, cu, padded, i);
      LastTerms(lp, logits, rows, width, cu, padded, i);
      PackedTermsSnoc(lp, logits, rows, width, cu, padded, i, last);
      TotalOfNext(PackedTerms(lp, logits, rows, width, cu, padded, i), last);
    }
  }

  lemma TotalOfNext(lists: seq<seq<real>>, last: seq<real>)
    ensures Total(Flatten(lists + [last])) == Total(Flatten(lists)) + Total(last)
  {
    FlattenSnoc(lists, last);
    TotalAppend(Flatten(lists), last);
  }

  /** The terms of a padded batch. */
  function PaddedTerms<Z>(lp: (Z, int) -> real, z: seq<seq<Z>>, rows: seq<Example>, width: nat): (r: seq<seq<real>>)
    requires |z| == |rows| && SameWidth(rows, width) && AllOfLength(z, width)
    ensures |r| == |rows|
    ensures forall i :: 0 <= i < |rows| ==> r[i] == NextTokenTerms(lp, z[i], 0, rows[i], Positions(rows[i]))
  {
    seq(|rows|, i requires 0 <= i < |rows| => NextTokenTerms(lp, z[i], 0, rows[i], Positions(rows[i])))
  }

  lemma {:induction false} BatchSumIsTotal<Z>(lp: (Z, int) -> real, z: seq<seq<Z>>, rows: seq<Example>, width: nat)
    requires |z| == |rows| && SameWidth(rows, width) && AllOfLength(z, width)
    ensures BatchSum(lp, z, rows, width) == Total(Flatten(PaddedTerms(lp, z, rows, width)))
  {
    if rows != [] {
      var m, terms := |rows| - 1, PaddedTerms(lp, z, rows, width);
      BatchSumIsTotal(lp, z[..m], rows[..m], width);
      TokenSumIsTotal(lp, z[m], rows[m], Positions(rows[m]));
      assert terms == PaddedTerms(lp, z[..m], rows[..m], width) + [terms[m]];
      TotalOfNext(PaddedTerms(lp, z[..m], rows[..m], width), terms[m]);
    }
  }

  function Times(x: real, y: real): real { x * y }

  /** `loss` is the negated total of the terms over the normaliser. */
  ghost predicate NegatedMean(loss: real, terms: seq<real>, norm: real, eps: real) {
    Times(loss, norm + eps) == -Total(terms)
  }

  lemma NormalisedMeans(sum: real, norm: real, eps: real)
    requires norm + eps != 0.0
    ensures Times(Normalised(sum, norm, eps), norm + eps) == -sum
  {}

  /** The loss of the padded batch: over all rows and all positions with a next token, the
      negated total of that token's masked log-probability, over the normaliser. */
  lemma PaddedLossMeans<Z>(lp: (Z, int) -> real, z: seq<seq<Z>>, rows: seq<Example>, width: nat, norm: real, eps: real)
    requires |z| == |rows| && SameWidth(rows, width) && AllOfLength(z, width) && norm + eps != 0.0
    ensures NegatedMean(PaddedLoss(lp, z, rows, width, norm, eps), Flatten(PaddedTerms(lp, z, rows, width)), norm, eps)
  {
    BatchSumIsTotal(lp, z, rows, width);
    NormalisedMeans(BatchSum(lp, z, rows, width), norm, eps);
  }

  /** The packed loss and its two counts, over the terms of all sequences. */
  ghost predicate LossOfTerms<Z>(lp: (Z, int) -> real, logits: seq<Z>, rows: seq<Example>, width: nat, cu: seq<nat>,
                                 padded: seq<nat>, norm: real, eps: real, metrics: Metrics)
    requires SameWidth(rows, width) && Layout(cu, padded, |rows|, |logits|)
  {
    LayoutIncreases(cu, padded, |rows|, |logits|);
    && NegatedMean(metrics.loss, Flatten(PackedTerms(lp, logits, rows, width, cu, padded, |rows|)), norm, eps)
    && metrics.unmasked == Total(Flatten(PackedMasks(rows, width, cu, |rows|)))
    && metrics.samples == Total(SampleMasks(rows, |rows|))
  }

  lemma PackedLossMeans<Z>(lp: (Z, int) -> real, logits: seq<Z>, rows: seq<Example>, width: nat, cu: seq<nat>,
                           padded: seq<nat>, norm: real, eps: real, metrics: Metrics)
    requires SameWidth(rows, width) && Layout(cu, padded, |rows|, |logits|) && norm + eps != 0.0
    requires metrics.loss == Normalised(PackedSum(lp, logits, rows, width, cu, padded, |rows|), norm, eps)
    requires Ascends(cu, |rows|)
    requires metrics.unmasked == PackedMask(rows, width, cu, |rows|) && metrics.samples == SampleSum(rows, |rows|)
    ensures LossOfTerms(lp, logits, rows, width, cu, padded, norm, eps, metrics)
  {
    PackedSumIsTotal(lp, logits, rows, width, cu, padded, |rows|);
    NormalisedMeans(PackedSum(lp, logits, rows, width, cu, padded, |rows|), norm, eps);
    MaskCountMeans(rows, width, cu, |rows|);
    SampleCountMeans(rows, |rows|);
  }

  /** The mask of each of `n` next tokens. */
  function MaskTerms(row: Example, n: nat): (r: seq<real>)
    requires n > 0 ==> n < |row.mask|
    ensures |r| == n && forall j :: 0 <= j < n ==> r[j] == Times(row.mask[j + 1], row.sample)
  {
    seq(n, j requires 0 <= j < n => Times(row.mask[j + 1], row.sample))
  }

  lemma {:induction false} MaskSumIsTotal(row: Example, n: nat)
    requires n > 0 ==> n < |row.mask|
    ensures MaskSum(row, n) == Total(MaskTerms(row, n))
  {
    if n > 0 {
      MaskSumIsTotal(row, n - 1);
      assert MaskTerms(row, n)[..n - 1] == MaskTerms(row, n - 1);
    }
  }

  lemma OwnMaskIsTotal(row: Example, len: nat)
    requires |row.mask| == |row.ids|
    ensures OwnMask(row, len) == Total(MaskTerms(row, OwnPositions(row, len)))
  {
    var cut, n := Unpad(row, len), OwnPositions(row, len);
    MaskSumIsTotal(cut, n);
    forall j | 0 <= j < n ensures MaskTerms(cut, n)[j] == MaskTerms(row, n)[j] {
      assert cut.mask[j + 1] == row.mask[j + 1];
    }
    assert MaskTerms(cut, n) == MaskTerms(row, n);
  }

  /** The masks of the first `n` sequences' own next tokens. */
  function PackedMasks(rows: seq<Example>, width: nat, cu: seq<nat>, n: nat): (r: seq<seq<real>>)
    requires n <= |rows| && SameWidth(rows, width) && Ascends(cu, |rows|)
    ensures |r| == n
    ensures forall i :: 0 <= i < n ==> r[i] == MaskTerms(rows[i], OwnPositions(rows[i], cu[i + 1] - cu[i]))
  {
    if n == 0 then []
    else
      var i := n - 1;
      PackedMasks(rows, width, cu, i) + [MaskTerms(rows[i], OwnPositions(rows[i], cu[i + 1] - cu[i]))]
  }

  function SampleMasks(rows: seq<Example>, n: nat): (r: seq<real>)
    requires n <= |rows|
    ensures |r| == n && forall i :: 0 <= i < n ==> r[i] == rows[i].sample
  {
    seq(n, i requires 0 <= i < n => rows[i].sample)
  }

  lemma PackedMasksSnoc(rows: seq<Example>, width: nat, cu: seq<nat>, i: nat, len: nat, last: seq<real>)
    requires i < |rows| && SameWidth(rows, width) && Ascends(cu, |rows|) && len == cu[i + 1] - cu[i]
    requires last == MaskTerms(rows[i], OwnPositions(rows[i], len))
    ensures PackedMasks(rows, width, cu, i + 1) == PackedMasks(rows, width, cu, i) + [last]
    ensures PackedMask(rows, width, cu, i + 1) == PackedMask(rows, width, cu, i) + Total(last)
  {
    OwnMaskIsTotal(rows[i], len);
  }

  /** The reported number of unmasked tokens is the total of the masks. */
  lemma {:induction false} MaskCountMeans(rows: seq<Example>, width: nat, cu: seq<nat>, n: nat)
    requires n <= |rows| && SameWidth(rows, width) && Ascends(cu, |rows|)
    ensures PackedMask(rows, width, cu, n) == Total(Flatten(PackedMasks(rows, width, cu, n)))
  {
    if n > 0 {
      var i := n - 1;
      assert cu[i] <= cu[i + 1];
      var len: nat := cu[i + 1] - cu[i];
      var last := MaskTerms(rows[i], OwnPositions(rows[i], len));
      MaskCountMeans(rows, width, cu, i);
      PackedMasksSnoc(rows, width, cu, i, len, last);
      TotalOfNext(PackedMasks(rows, width, cu, i), last);
    }
  }

  lemma {:induction false} SampleCountMeans(rows: seq<Example>, n: nat)
    requires n <= |rows|
    ensures SampleSum(rows, n) == Total(SampleMasks(rows, n))
  {
    if n > 0 {
      SampleCountMeans(rows, n - 1);
      assert SampleMasks(rows, n)[..n - 1] == SampleMasks(rows, n - 1);
    }
  }
}
