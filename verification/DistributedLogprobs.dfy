/** The forward and backward passes of `DistributedLogprob` and `ChunkedDistributedLogprob`
    over a sequence of positions (nemo_rl/distributed/model_utils.py).
    `logits[s]` holds the parts of all ranks at position `s`. */
module DistributedLogprobs {
  import opened Lists
  import opened Reals
  import opened VocabParallel

  /** starts[r] .. starts[r + 1] is rank `r`'s vocabulary interval; together they partition
      the vocabulary. */
  ghost predicate Intervals(shards: seq<seq<real>>, starts: seq<int>) {
    NoneEmpty(shards) && |starts| == |shards| + 1 && forall r :: 0 <= r <= |shards| ==> starts[r] == Start(shards, r)
  }

  ghost predicate Shaped(logits: seq<seq<seq<real>>>, starts: seq<int>) {
    |starts| >= 2 && forall s :: 0 <= s < |logits| ==> Intervals(logits[s], starts)
  }

  // ---------------------------------------------------------------- forward

  /** Marks the targets outside the rank's interval and points them at entry 0, in place. */
  method MaskTargets(targets: seq<int>, start: int, end: int) returns (mask: array<bool>, masked: array<int>)
    ensures fresh(mask) && fresh(masked) && mask.Length == masked.Length == |targets|
    ensures forall s :: 0 <= s < |targets| ==>
              mask[s] == !(start <= targets[s] < end) && masked[s] == if mask[s] then 0 else targets[s] - start
  {
    var n := |targets|;
    mask := new bool[n](s requires 0 <= s < n => targets[s] < start || targets[s] >= end);
    masked := new int[n](s requires 0 <= s < n => targets[s] - start);
    for s := 0 to n
      invariant forall k :: 0 <= k < n ==> mask[k] == !(start <= targets[k] < end)
      invariant forall k :: 0 <= k < n ==> masked[k] == if k < s && mask[k] then 0 else targets[k] - start
    {
      if mask[s] {
        masked[s] := 0;
      }
    }
  }

  /** One rank's log-probabilities before the all_reduce. */
  method RankForward(exp: real -> real, log: real -> real, logits: seq<seq<seq<real>>>, starts: seq<int>,
                     targets: seq<int>, r: nat) returns (lp: array<real>)
    requires Shaped(logits, starts) && |targets| == |logits| && r < |starts| - 1
    ensures fresh(lp) && lp.Length == |logits|
    ensures forall s :: 0 <= s < |logits| ==> lp[s] == Contribution(exp, log, logits[s], r, targets[s])
  {
    forall s | 0 <= s < |logits| ensures Ranked(logits[s], starts, r) {
      RankWidth(logits[s], starts, r);
    }
    var mask, masked := MaskTargets(targets, starts[r], starts[r + 1]);
    lp := Gather(exp, log, logits, r, masked[..]);
    ZeroWhere(lp, mask[..]);
  }

  method Gather(exp: real -> real, log: real -> real, logits: seq<seq<seq<real>>>, r: nat, indices: seq<int>)
    returns (lp: array<real>)
    requires |indices| == |logits| && forall s :: 0 <= s < |logits| ==>
               NoneEmpty(logits[s]) && r < |logits[s]| && 0 <= indices[s] < |logits[s][r]|
    ensures fresh(lp) && lp.Length == |logits|
    ensures forall s :: 0 <= s < |logits| ==> lp[s] == RankLogSoftmax(exp, log, logits[s], r)[indices[s]]
  {
    lp := new real[|logits|];
    for s := 0 to |logits|
      invariant forall k :: 0 <= k < s ==> lp[k] == RankLogSoftmax(exp, log, logits[k], r)[indices[k]]
    {
      lp[s] := RankLogSoftmax(exp, log, logits[s], r)[indices[s]];
    }
  }

  /** lp[mask] = 0.0 */
  method ZeroWhere(lp: array<real>, mask: seq<bool>)
    requires lp.Length == |mask|
    modifies lp
    ensures forall s :: 0 <= s < |mask| ==> lp[s] == if mask[s] then 0.0 else old(lp[s])
  {
    for s := 0 to |mask|
      invariant forall k :: 0 <= k < |mask| ==> lp[k] == if k < s && mask[k] then 0.0 else old(lp[k])
    {
      if mask[s] {
        lp[s] := 0.0;
      }
    }
  }

  ghost predicate Ranked(shards: seq<seq<real>>, starts: seq<int>, r: nat) {
    && NoneEmpty(shards) && r < |shards| && |starts| == |shards| + 1
    && starts[r] == Start(shards, r) && starts[r + 1] == Start(shards, r + 1)
    && starts[r + 1] - starts[r] == |shards[r]| > 0
  }

  lemma RankWidth(shards: seq<seq<real>>, starts: seq<int>, r: nat)
    requires Intervals(shards, starts) && r < |starts| - 1
    ensures Ranked(shards, starts, r)
  {
    BlockAtOffset(shards, r);
  }

  /** Masked gathers on every rank, summed: the full-vocabulary log-softmax at each target. */
  method Forward(exp: real -> real, log: real -> real, logits: seq<seq<seq<real>>>, starts: seq<int>, targets: seq<int>)
    returns (out: seq<real>)
    requires Shaped(logits, starts) && |targets| == |logits|
    ensures out == Logprobs(exp, log, logits, targets)
  {
    var n := |logits|;
    out := seq(n, _ => 0.0);
    for r := 0 to |starts| - 1
      invariant |out| == n
      invariant forall s :: 0 <= s < n ==> Intervals(logits[s], starts)
      invariant forall s :: 0 <= s < n ==> out[s] == Reduced(exp, log, logits[s], targets[s], r)
    {
      var lp := RankForward(exp, log, logits, starts, targets, r);
      var sum := seq(n, s requires 0 <= s < n && n == |out| == lp.Length reads lp => out[s] + lp[s]);
      forall s | 0 <= s < n ensures sum[s] == Reduced(exp, log, logits[s], targets[s], r + 1) {
        assert sum[s] == out[s] + Contribution(exp, log, logits[s], r, targets[s]);
      }
      out := sum;
    }
    forall s | 0 <= s < n ensures out[s] == PointLogprob(exp, log, logits[s], targets[s]) {
      assert Intervals(logits[s], starts);
      MaskedGathersSum(exp, log, logits[s], targets[s]);
    }
  }

  /** The log-probability of a target under the undivided logits of its position. */
  function PointLogprob(exp: real -> real, log: real -> real, shards: seq<seq<real>>, target: int): real {
    if Flatten(shards) == [] then 0.0 else Logprob(exp, log, Flatten(shards), target)
  }

  /** The unsharded definition, position by position. */
  function Logprobs(exp: real -> real, log: real -> real, logits: seq<seq<seq<real>>>,
                    targets: seq<int>): (r: seq<real>)
    requires |targets| == |logits|
    ensures |r| == |logits|
    ensures forall s :: 0 <= s < |r| ==> r[s] == PointLogprob(exp, log, logits[s], targets[s])
  {
    seq(|logits|, s requires 0 <= s < |logits| => PointLogprob(exp, log, logits[s], targets[s]))
  }

  lemma ShapedPart(logits: seq<seq<seq<real>>>, starts: seq<int>, a: nat, b: nat)
    requires Shaped(logits, starts) && a <= b <= |logits|
    ensures Shaped(logits[a..b], starts)
  {}

  lemma LogprobsAppend(exp: real -> real, log: real -> real, logits: seq<seq<seq<real>>>, targets: seq<int>, a: nat,
                       b: nat)
    requires |targets| == |logits| && a <= b <= |logits|
    ensures Logprobs(exp, log, logits[..b], targets[..b])
         == Logprobs(exp, log, logits[..a], targets[..a]) + Logprobs(exp, log, logits[a..b], targets[a..b])
  {}

  /** The chunked form; torch.cat of no chunks at all is an error. */
  method ChunkedForward(exp: real -> real, log: real -> real, logits: seq<seq<seq<real>>>, starts: seq<int>,
                        targets: seq<int>, chunk: nat) returns (ok: bool, out: seq<real>)
    requires Shaped(logits, starts) && |targets| == |logits| && 0 < chunk
    ensures ok == (logits != [])
    ensures ok ==> out == Logprobs(exp, log, logits, targets)
  {
    var n, done := |logits|, 0;
    out := [];
    while done < n
      invariant done <= n && out == Logprobs(exp, log, logits[..done], targets[..done])
    {
      var end := Min(n, done + chunk);
      ShapedPart(logits, starts, done, end);
      var part := Forward(exp, log, logits[done..end], starts, targets[done..end]);
      LogprobsAppend(exp, log, logits, targets, done, end);
      out, done := out + part, end;
    }
    ok := n > 0;
    assert logits[..n] == logits && targets[..n] == targets;
  }

  // ---------------------------------------------------------------- backward

  function Entry(chosen: bool, p: real, g: real): real { ((if chosen then 1.0 else 0.0) - p) * g }

  /** (chosen - softmax) * grad for one position on one rank. */
  function GradRow(p: seq<real>, masked: bool, t: int, g: real): (r: seq<real>)
    ensures |r| == |p| && forall v :: 0 <= v < |p| ==> r[v] == Entry(!masked && v == t, p[v], g)
  {
    seq(|p|, v requires 0 <= v < |p| => Entry(!masked && v == t, p[v], g))
  }

  datatype Saved = Saved(p: seq<real>, masked: bool, t: nat, g: real)

  ghost predicate SavedOk(saved: seq<Saved>, width: nat) {
    forall k :: 0 <= k < |saved| ==> |saved[k].p| == width && saved[k].t < width
  }

  function GradRows(saved: seq<Saved>): (r: seq<seq<real>>)
    ensures |r| == |saved|
    ensures forall k :: 0 <= k < |r| ==> r[k] == GradRow(saved[k].p, saved[k].masked, saved[k].t, saved[k].g)
  {
    seq(|saved|, k requires 0 <= k < |saved| => GradRow(saved[k].p, saved[k].masked, saved[k].t, saved[k].g))
  }

  method SubtractInPlace(row: array<real>, p: seq<real>)
    requires row.Length == |p|
    modifies row
    ensures forall v :: 0 <= v < |p| ==> row[v] == old(row[v]) - p[v]
  {
    for v := 0 to |p|
      invariant forall k :: 0 <= k < v ==> row[k] == old(row[k]) - p[k]
      invariant forall k :: v <= k < |p| ==> row[k] == old(row[k])
    {
      row[v] := row[v] - p[v];
    }
  }

  method MultiplyInPlace(row: array<real>, g: real)
    modifies row
    ensures forall v :: 0 <= v < row.Length ==> row[v] == old(row[v]) * g
  {
    for v := 0 to row.Length
      invariant forall k :: 0 <= k < v ==> row[k] == old(row[k]) * g
      invariant forall k :: v <= k < row.Length ==> row[k] == old(row[k])
    {
      row[v] := row[v] * g;
    }
  }

  /** The one-hot branch, in place: chosen, minus softmax, times grad. */
  method OneHotRow(sv: Saved) returns (row: array<real>)
    ensures fresh(row) && row[..] == GradRow(sv.p, sv.masked, sv.t, sv.g)
  {
    row := new real[|sv.p|](v => if !sv.masked && v == sv.t then 1.0 else 0.0);
    SubtractInPlace(row, sv.p);
    MultiplyInPlace(row, sv.g);
    var want := GradRow(sv.p, sv.masked, sv.t, sv.g);
    forall v | 0 <= v < |sv.p| ensures row[v] == want[v] {
      assert want[v] == Entry(!sv.masked && v == sv.t, sv.p[v], sv.g);
    }
  }

  method OneHotGradient(saved: seq<Saved>) returns (rows: seq<seq<real>>)
    ensures rows == GradRows(saved)
  {
    rows := [];
    for k := 0 to |saved|
      invariant rows == GradRows(saved[..k])
    {
      var row := OneHotRow(saved[k]);
      rows := rows + [row[..]];
    }
    assert saved[..|saved|] == saved;
  }

  /** `softmax.neg()` times grad. */
  function NegRow(p: seq<real>, g: real): (r: seq<real>)
    ensures |r| == |p|
  {
    seq(|p|, v requires 0 <= v < |p| => -p[v] * g)
  }

  /** Rows once the positions in `done` have had their grad scattered. */
  ghost function Scattered(saved: seq<Saved>, done: seq<nat>): (r: seq<seq<real>>)
    ensures |r| == |saved|
  {
    seq(|saved|, k requires 0 <= k < |saved| =>
      if k in done then GradRow(saved[k].p, false, saved[k].t, saved[k].g) else NegRow(saved[k].p, saved[k].g))
  }

  lemma {:induction false} FlattenUpdate(rows: seq<seq<real>>, width: nat, k: nat, t: nat, j: int, x: real)
    requires AllOfLength(rows, width) && k < |rows| && t < width && j == k * width + t
    ensures 0 <= j < |Flatten(rows)| && Flatten(rows)[j] == rows[k][t]
    ensures Flatten(rows[k := rows[k][t := x]]) == Flatten(rows)[j := x]
  {
    var m := |rows| - 1;
    var rows' := rows[k := rows[k][t := x]];
    FlattenLength(rows, width);
    FlattenLength(rows[..m], width);
    BlockBounds(k, |rows|, width);
    if k == m {
      assert rows'[..m] == rows[..m];
    } else {
      BlockBounds(k, m, width);
      FlattenUpdate(rows[..m], width, k, t, j, x);
      assert rows'[..m] == rows[..m][k := rows[k][t := x]];
    }
  }

  lemma ScatterOne(saved: seq<Saved>, width: nat, done: seq<nat>, k: nat)
    requires SavedOk(saved, width) && k < |saved| && k !in done
    ensures AllOfLength(Scattered(saved, done), width)
    ensures var rows := Scattered(saved, done);
            Scattered(saved, done + [k]) == rows[k := rows[k][saved[k].t := rows[k][saved[k].t] + saved[k].g]]
  {
    var rows := Scattered(saved, done);
    var after := Scattered(saved, done + [k]);
    AddToChosen(saved[k].p, saved[k].t, saved[k].g);
    forall i | 0 <= i < |saved| && i != k ensures after[i] == rows[i] {}
  }

  lemma AddToChosen(p: seq<real>, t: nat, g: real)
    requires t < |p|
    ensures GradRow(p, false, t, g) == NegRow(p, g)[t := NegRow(p, g)[t] + g]
  {
    forall v | 0 <= v < |p| ensures GradRow(p, false, t, g)[v] == NegRow(p, g)[t := NegRow(p, g)[t] + g][v] {
      assert (1.0 - p[v]) * g == -p[v] * g + g;
    }
  }

  /** Every position that is not masked is in `done`, once. */
  ghost predicate Unmasked(saved: seq<Saved>, n: nat, done: seq<nat>) {
    && n <= |saved| && (forall i, j :: 0 <= i < j < |done| ==> done[i] < done[j])
    && (forall i :: 0 <= i < |done| ==> done[i] < n)
    && (forall k: nat :: k < n ==> (k in done <==> !saved[k].masked))
  }

  lemma MaskedRow(p: seq<real>, t: int, g: real)
    ensures NegRow(p, g) == GradRow(p, true, t, g)
  {
    forall v | 0 <= v < |p| ensures NegRow(p, g)[v] == GradRow(p, true, t, g)[v] {
      assert Entry(false, p[v], g) == -p[v] * g;
    }
  }

  lemma AllScattered(saved: seq<Saved>, done: seq<nat>)
    requires Unmasked(saved, |saved|, done)
    ensures Scattered(saved, done) == GradRows(saved)
  {
    forall k | 0 <= k < |saved| ensures Scattered(saved, done)[k] == GradRows(saved)[k] {
      MaskedRow(saved[k].p, saved[k].t, saved[k].g);
    }
  }

  /** `flat_chosen` and the selected grads; position `k` is row k / len, column k % len. */
  method ChooseFlat(saved: seq<Saved>, len: nat, width: nat)
    returns (chosen: seq<int>, selected: seq<real>, ghost done: seq<nat>)
    requires 0 < len
    ensures Unmasked(saved, |saved|, done) && ChosenFor(saved, width, done, chosen, selected)
  {
    chosen, selected, done := [], [], [];
    for k := 0 to |saved|
      invariant Unmasked(saved, k, done) && |chosen| == |selected| == |done|
      invariant forall i :: 0 <= i < |done| ==> Chosen(saved, width, done[i], chosen[i], selected[i])
    {
      var row, col := k / len, k % len;
      FlatPosition(k, len, row, col);
      var flat := (row * len + col) * width;
      if !saved[k].masked {
        chosen, selected, done := chosen + [flat + saved[k].t], selected + [saved[k].g], done + [k];
      }
    }
  }

  lemma FlatPosition(k: nat, len: nat, row: int, col: int)
    requires 0 < len && row == k / len && col == k % len
    ensures row * len + col == k
  {}

  predicate Chosen(saved: seq<Saved>, width: nat, k: nat, index: int, g: real) {
    k < |saved| && index == k * width + saved[k].t && g == saved[k].g
  }

  /** scatter_add_ on a flat tensor: one entry after the other. */
  function ScatterAdd(flat: seq<real>, chosen: seq<int>, selected: seq<real>): (r: seq<real>)
    requires |chosen| == |selected| && forall i :: 0 <= i < |chosen| ==> 0 <= chosen[i] < |flat|
    ensures |r| == |flat|
  {
    if chosen == [] then flat
    else
      var m := |chosen| - 1;
      var before := ScatterAdd(flat, chosen[..m], selected[..m]);
      before[chosen[m] := before[chosen[m]] + selected[m]]
  }

  method ScatterAddInPlace(grad: array<real>, chosen: seq<int>, selected: seq<real>)
    requires |chosen| == |selected| && forall i :: 0 <= i < |chosen| ==> 0 <= chosen[i] < grad.Length
    modifies grad
    ensures grad[..] == ScatterAdd(old(grad[..]), chosen, selected)
  {
    for i := 0 to |chosen|
      invariant grad[..] == ScatterAdd(old(grad[..]), chosen[..i], selected[..i])
    {
      assert chosen[..i + 1][..i] == chosen[..i] && selected[..i + 1][..i] == selected[..i];
      grad[chosen[i]] := grad[chosen[i]] + selected[i];
    }
    assert chosen[..|chosen|] == chosen && selected[..|selected|] == selected;
  }

  /** The 3-D branch: -softmax * grad, then scatter_add_ into the flat view, in place. */
  method ScatterGradient(saved: seq<Saved>, len: nat, width: nat) returns (grad: array<real>)
    requires SavedOk(saved, width) && 0 < len
    ensures fresh(grad) && grad[..] == Flatten(GradRows(saved))
  {
    var chosen, selected, done := ChooseFlat(saved, len, width);
    grad := Negated(saved);
    ScatterAll(saved, width, done, chosen, selected, grad[..]);
    ScatterAddInPlace(grad, chosen, selected);
    AllScattered(saved, done);
  }

  ghost predicate ChosenFor(saved: seq<Saved>, width: nat, done: seq<nat>, chosen: seq<int>, selected: seq<real>) {
    && |chosen| == |selected| == |done| && (forall i, j :: 0 <= i < j < |done| ==> done[i] < done[j])
    && forall i :: 0 <= i < |done| ==> Chosen(saved, width, done[i], chosen[i], selected[i])
  }

  /** One entry added to row `k`. */
  function AddCell(rows: seq<seq<real>>, k: nat, t: nat, g: real): (r: seq<seq<real>>)
    requires k < |rows| && t < |rows[k]|
    ensures |r| == |rows|
  {
    rows[k := rows[k][t := rows[k][t] + g]]
  }

  /** In the flat view the entry lies at k * width + t. */
  lemma FlattenAddCell(rows: seq<seq<real>>, width: nat, k: nat, t: nat, j: int, g: real,
                       flat: seq<real>, more: seq<seq<real>>)
    requires AllOfLength(rows, width) && k < |rows| && t < width && j == k * width + t
    requires flat == Flatten(rows) && more == AddCell(rows, k, t, g)
    ensures AllOfLength(more, width)
    ensures 0 <= j < |flat| && Flatten(more) == flat[j := flat[j] + g]
  {
    FlattenUpdate(rows, width, k, t, j, rows[k][t] + g);
  }

  /** Adds each position's grad to its chosen entry, row by row. */
  ghost function AddCells(rows: seq<seq<real>>, saved: seq<Saved>, width: nat, done: seq<nat>): (r: seq<seq<real>>)
    requires AllOfLength(rows, width) && |rows| == |saved| && SavedOk(saved, width)
    requires forall i :: 0 <= i < |done| ==> done[i] < |saved|
    ensures |r| == |rows| && AllOfLength(r, width)
  {
    if done == [] then rows
    else
      var k := done[|done| - 1];
      AddCell(AddCells(rows, saved, width, done[..|done| - 1]), k, saved[k].t, saved[k].g)
  }

  ghost predicate CellsExist(rows: seq<seq<real>>, done: seq<nat>, chosen: seq<int>) {
    && (forall i :: 0 <= i < |done| ==> done[i] < |rows|)
    && (forall i :: 0 <= i < |chosen| ==> 0 <= chosen[i] < |Flatten(rows)|)
  }

  lemma CellsInRange(rows: seq<seq<real>>, saved: seq<Saved>, width: nat, done: seq<nat>,
                     chosen: seq<int>, selected: seq<real>)
    requires AllOfLength(rows, width) && |rows| == |saved| && SavedOk(saved, width)
    requires ChosenFor(saved, width, done, chosen, selected)
    ensures CellsExist(rows, done, chosen)
  {
    forall i | 0 <= i < |done| ensures done[i] < |saved| && 0 <= chosen[i] < |Flatten(rows)| {
      assert Chosen(saved, width, done[i], chosen[i], selected[i]);
      FlattenUpdate(rows, width, done[i], saved[done[i]].t, chosen[i], 0.0);
    }
  }

  /** Scattering into the flat view is adding row by row. */
  lemma {:induction false} ScatterIsAddCells(rows: seq<seq<real>>, saved: seq<Saved>, width: nat, done: seq<nat>,
                                             chosen: seq<int>, selected: seq<real>, flat: seq<real>)
    requires AllOfLength(rows, width) && |rows| == |saved| && SavedOk(saved, width) && flat == Flatten(rows)
    requires ChosenFor(saved, width, done, chosen, selected) && CellsExist(rows, done, chosen)
    ensures ScatterAdd(flat, chosen, selected) == Flatten(AddCells(rows, saved, width, done))
  {
    if done != [] {
      var m := |done| - 1;
      WithoutLast(rows, saved, width, done, chosen, selected, m);
      ScatterIsAddCells(rows, saved, width, done[..m], chosen[..m], selected[..m], flat);
      LastCell(AddCells(rows, saved, width, done[..m]), width, done[m], saved[done[m]].t, chosen[m], selected[m],
               ScatterAdd(flat, chosen[..m], selected[..m]));
    }
  }

  lemma WithoutLast(rows: seq<seq<real>>, saved: seq<Saved>, width: nat, done: seq<nat>,
                    chosen: seq<int>, selected: seq<real>, m: nat)
    requires ChosenFor(saved, width, done, chosen, selected) && CellsExist(rows, done, chosen) && m + 1 == |done|
    ensures ChosenFor(saved, width, done[..m], chosen[..m], selected[..m]) && CellsExist(rows, done[..m], chosen[..m])
    ensures Chosen(saved, width, done[m], chosen[m], selected[m])
  {
    forall i | 0 <= i < m ensures Chosen(saved, width, done[..m][i], chosen[..m][i], selected[..m][i]) {
      assert Chosen(saved, width, done[i], chosen[i], selected[i]);
    }
    assert Chosen(saved, width, done[m], chosen[m], selected[m]);
  }

  lemma LastCell(rows: seq<seq<real>>, width: nat, k: nat, t: nat, j: int, g: real, flat: seq<real>)
    requires AllOfLength(rows, width) && k < |rows| && t < width && j == k * width + t && flat == Flatten(rows)
    ensures 0 <= j < |flat| && flat[j := flat[j] + g] == Flatten(AddCell(rows, k, t, g))
  {
    FlattenAddCell(rows, width, k, t, j, g, flat, AddCell(rows, k, t, g));
  }

  lemma OneMoreCell(saved: seq<Saved>, width: nat, done: seq<nat>, k: nat, more: seq<nat>)
    requires SavedOk(saved, width) && k < |saved| && k !in done && more == done + [k]
    ensures AllOfLength(Scattered(saved, done), width)
    ensures AddCell(Scattered(saved, done), k, saved[k].t, saved[k].g) == Scattered(saved, more)
  {
    ScatterOne(saved, width, done, k);
  }

  /** Adding the grads of `done` to the negated rows. */
  lemma {:induction false} AddCellsIsScattered(saved: seq<Saved>, width: nat, done: seq<nat>, rows: seq<seq<real>>)
    requires SavedOk(saved, width) && (forall i :: 0 <= i < |done| ==> done[i] < |saved|)
    requires forall i, j :: 0 <= i < j < |done| ==> done[i] < done[j]
    requires rows == Scattered(saved, []) && AllOfLength(rows, width)
    ensures AddCells(rows, saved, width, done) == Scattered(saved, done)
  {
    if done != [] {
      var m := |done| - 1;
      AddCellsIsScattered(saved, width, done[..m], rows);
      assert done == done[..m] + [done[m]];
      OneMoreCell(saved, width, done[..m], done[m], done);
    }
  }

  lemma ScatterAll(saved: seq<Saved>, width: nat, done: seq<nat>, chosen: seq<int>, selected: seq<real>,
                   flat: seq<real>)
    requires SavedOk(saved, width) && ChosenFor(saved, width, done, chosen, selected)
    requires flat == Flatten(Scattered(saved, []))
    ensures forall i :: 0 <= i < |chosen| ==> 0 <= chosen[i] < |flat|
    ensures ScatterAdd(flat, chosen, selected) == Flatten(Scattered(saved, done))
  {
    var rows := Scattered(saved, []);
    forall k | 0 <= k < |rows| ensures |rows[k]| == width {}
    CellsInRange(rows, saved, width, done, chosen, selected);
    ScatterIsAddCells(rows, saved, width, done, chosen, selected, flat);
    AddCellsIsScattered(saved, width, done, rows);
  }

  method Negated(saved: seq<Saved>) returns (grad: array<real>)
    ensures fresh(grad) && grad[..] == Flatten(Scattered(saved, []))
  {
    var flat: seq<real> := [];
    for k := 0 to |saved|
      invariant flat == Flatten(Scattered(saved[..k], []))
    {
      assert Scattered(saved[..k + 1], [])[..k] == Scattered(saved[..k], []);
      flat := flat + NegRow(saved[k].p, saved[k].g);
    }
    assert saved[..|saved|] == saved;
    grad := new real[|flat|](i requires 0 <= i < |flat| => flat[i]);
  }

  // ---------------------------------------------------------------- chunked backward

  function Softmaxes(exp: real -> real, log: real -> real, logits: seq<seq<seq<real>>>, r: nat): (p: seq<seq<real>>)
    requires forall s :: 0 <= s < |logits| ==> NoneEmpty(logits[s]) && r < |logits[s]|
    ensures |p| == |logits|
    ensures forall s :: 0 <= s < |p| ==> p[s] == Exps(exp, RankLogSoftmax(exp, log, logits[s], r))
  {
    seq(|logits|, s requires 0 <= s < |logits| => Exps(exp, RankLogSoftmax(exp, log, logits[s], r)))
  }

  /** What backward works with: softmax recomputed from the saved logits. */
  function SavedFor(p: seq<seq<real>>, mask: seq<bool>, masked: seq<nat>, g: seq<real>): (sv: seq<Saved>)
    requires |p| == |mask| == |masked| == |g|
    ensures |sv| == |p| && forall s :: 0 <= s < |p| ==> sv[s] == Saved(p[s], mask[s], masked[s], g[s])
  {
    seq(|p|, s requires 0 <= s < |p| => Saved(p[s], mask[s], masked[s], g[s]))
  }

  lemma GradRowsAppend(saved: seq<Saved>, a: nat, b: nat)
    requires a <= b <= |saved|
    ensures GradRows(saved[..b]) == GradRows(saved[..a]) + GradRows(saved[a..b])
  {}

  /** Recomputing the softmax chunk by chunk gives the gradient of the whole. */
  method ChunkedGradient(exp: real -> real, log: real -> real, logits: seq<seq<seq<real>>>, r: nat,
                         mask: seq<bool>, masked: seq<nat>, g: seq<real>, chunk: nat)
    returns (ok: bool, rows: seq<seq<real>>)
    requires forall s :: 0 <= s < |logits| ==> NoneEmpty(logits[s]) && r < |logits[s]|
    requires |mask| == |masked| == |g| == |logits| && 0 < chunk
    ensures ok == (logits != [])
    ensures ok ==> rows == GradRows(SavedFor(Softmaxes(exp, log, logits, r), mask, masked, g))
  {
    ghost var saved := SavedFor(Softmaxes(exp, log, logits, r), mask, masked, g);
    var n, done := |logits|, 0;
    rows := [];
    while done < n
      invariant done <= n && rows == GradRows(saved[..done])
    {
      var end := Min(n, done + chunk);
      var p := Softmaxes(exp, log, logits[done..end], r);
      assert SavedFor(p, mask[done..end], masked[done..end], g[done..end]) == saved[done..end];
      var part := OneHotGradient(SavedFor(p, mask[done..end], masked[done..end], g[done..end]));
      GradRowsAppend(saved, done, end);
      rows, done := rows + part, end;
    }
    ok := n > 0;
    assert saved[..n] == saved;
  }

  // ---------------------------------------------------------------- the gradient over all ranks

  lemma EntriesAdd(a: bool, x: real, b: bool, y: real, g: real)
    requires !(a && b)
    ensures Entry(a, x, g) + Entry(b, y, g) == Entry(a || b, x + y, g)
  {}

  lemma {:induction false} GradTotal(p: seq<real>, masked: bool, t: int, g: real)
    requires masked || 0 <= t
    ensures Total(GradRow(p, masked, t, g)) == Entry(!masked && t < |p|, Total(p), g)
  {
    if p != [] {
      var k := |p| - 1;
      GradTotal(p[..k], masked, t, g);
      assert GradRow(p, masked, t, g)[..k] == GradRow(p[..k], masked, t, g);
      EntriesAdd(!masked && t < k, Total(p[..k]), !masked && k == t, p[k], g);
    }
  }

  /** Sum of the gradient entries of the first `k` ranks at one position. */
  function RankGradTotals(exp: real -> real, log: real -> real, shards: seq<seq<real>>, target: int, g: real,
                          k: nat): real
    requires NoneEmpty(shards) && k <= |shards|
  {
    if k == 0 then 0.0
    else
      var start, end := Start(shards, k - 1), Start(shards, k);
      RankGradTotals(exp, log, shards, target, g, k - 1)
      + Total(GradRow(Exps(exp, RankLogSoftmax(exp, log, shards, k - 1)), !(start <= target < end), target - start, g))
  }

  /** What every rank subtracts from its logits. */
  function Normaliser(exp: real -> real, log: real -> real, shards: seq<seq<real>>): real
    requires NoneEmpty(shards)
  {
    GlobalMax(shards) + log(GlobalExpSum(exp, shards, GlobalMax(shards)))
  }

  lemma RankMass(exp: real -> real, log: real -> real, shards: seq<seq<real>>, r: nat)
    requires NoneEmpty(shards) && r < |shards|
    ensures Total(Exps(exp, RankLogSoftmax(exp, log, shards, r)))
         == ExpSum(exp, shards[r], Normaliser(exp, log, shards))
  {
    ExpsOfShifted(exp, shards[r], Normaliser(exp, log, shards), RankLogSoftmax(exp, log, shards, r));
  }

  lemma RankGradStep(exp: real -> real, log: real -> real, shards: seq<seq<real>>, target: int, g: real, r: nat,
                     c: real)
    requires NoneEmpty(shards) && r < |shards| && c == Normaliser(exp, log, shards)
    ensures Start(shards, r) <= Start(shards, r + 1)
    ensures var start, end := Start(shards, r), Start(shards, r + 1);
            Total(GradRow(Exps(exp, RankLogSoftmax(exp, log, shards, r)), !(start <= target < end), target - start, g))
              == Entry(start <= target < end, ExpSum(exp, shards[r], c), g)
  {
    var start, end := Start(shards, r), Start(shards, r + 1);
    var p := Exps(exp, RankLogSoftmax(exp, log, shards, r));
    StartStep(shards, r);
    RankMass(exp, log, shards, r);
    GradTotal(p, !(start <= target < end), target - start, g);
    assert |p| == end - start;
  }

  lemma AddRank(exp: real -> real, log: real -> real, shards: seq<seq<real>>, target: int, g: real, r: nat, c: real)
    requires NoneEmpty(shards) && r < |shards| && c == Normaliser(exp, log, shards)
    ensures RankGradTotals(exp, log, shards, target, g, r + 1)
         == RankGradTotals(exp, log, shards, target, g, r)
          + Entry(Start(shards, r) <= target < Start(shards, r + 1), ExpSum(exp, shards[r], c), g)
  {
    RankGradStep(exp, log, shards, target, g, r, c);
  }

  /** Entries of consecutive ranks add up to the entry of all of them together. */
  lemma CombineRank(exp: real -> real, shards: seq<seq<real>>, target: int, g: real, r: nat, c: real)
    requires r < |shards|
    ensures Entry(target < Start(shards, r), GlobalExpSum(exp, shards[..r], c), g)
          + Entry(Start(shards, r) <= target < Start(shards, r + 1), ExpSum(exp, shards[r], c), g)
         == Entry(target < Start(shards, r + 1), GlobalExpSum(exp, shards[..r + 1], c), g)
  {
    StartStep(shards, r);
    MassStep(exp, shards, r, c);
    Combine(Start(shards, r), Start(shards, r + 1), target,
            GlobalExpSum(exp, shards[..r], c), ExpSum(exp, shards[r], c), g);
  }

  lemma {:induction false} RankGradPrefix(exp: real -> real, log: real -> real, shards: seq<seq<real>>, target: int,
                                          g: real, k: nat, c: real)
    requires NoneEmpty(shards) && k <= |shards| && 0 <= target && c == Normaliser(exp, log, shards)
    ensures RankGradTotals(exp, log, shards, target, g, k)
         == Entry(target < Start(shards, k), GlobalExpSum(exp, shards[..k], c), g)
  {
    if k > 0 {
      RankGradPrefix(exp, log, shards, target, g, k - 1, c);
      AddRank(exp, log, shards, target, g, k - 1, c);
      CombineRank(exp, shards, target, g, k - 1, c);
    }
  }

  lemma MassStep(exp: real -> real, shards: seq<seq<real>>, r: nat, c: real)
    requires r < |shards|
    ensures GlobalExpSum(exp, shards[..r + 1], c) == GlobalExpSum(exp, shards[..r], c) + ExpSum(exp, shards[r], c)
  {
    assert shards[..r + 1][..r] == shards[..r];
  }

  lemma Combine(start: int, end: int, target: int, x: real, y: real, g: real)
    requires start <= end
    ensures Entry(target < start, x, g) + Entry(start <= target < end, y, g) == Entry(target < end, x + y, g)
  {
    EntriesAdd(target < start, x, start <= target < end, y, g);
  }

  /** Over the whole vocabulary, on all ranks together, the gradient of each position sums
      to zero. */
  lemma GradientSumsToZero(exp: real -> real, log: real -> real, shards: seq<seq<real>>, target: int, g: real)
    requires ExpLog(exp, log) && NoneEmpty(shards) && 0 <= target < |Flatten(shards)|
    ensures RankGradTotals(exp, log, shards, target, g, |shards|) == 0.0
  {
    var c := Normaliser(exp, log, shards);
    RankGradPrefix(exp, log, shards, target, g, |shards|, c);
    assert shards[..|shards|] == shards;
    UnitMass(exp, log, shards, c);
  }

  lemma UnitMass(exp: real -> real, log: real -> real, shards: seq<seq<real>>, c: real)
    requires ExpLog(exp, log) && NoneEmpty(shards) && c == Normaliser(exp, log, shards)
    ensures GlobalExpSum(exp, shards, c) == 1.0
  {
    var m := GlobalMax(shards);
    GlobalMaxIsMax(shards);
    GlobalExpSumIsSum(exp, shards, m);
    GlobalExpSumIsSum(exp, shards, c);
    NormalisedMass(exp, log, Flatten(shards), m);
  }
}
