/** `BatchedDataDict` as the object the trainer works on: reordering, slicing, global batches
    and the microbatch iterators (nemo_rl/distributed/batched_data_dict.py). */
module BatchedData {
  import opened Lists
  import opened Sorting
  import opened Rows
  import opened Sharding
  import opened Microbatches
  import opened PackedShards

  predicate AllOfWidth(rows: seq<Row>, width: nat) {
    forall i :: 0 <= i < |rows| ==> |rows[i].tokens| == width
  }

  /** torch.narrow of the token column to its first `len` positions. */
  function Narrowed(rows: seq<Row>, len: nat): (r: seq<Row>)
    requires forall i :: 0 <= i < |rows| ==> len <= |rows[i].tokens|
    ensures |r| == |rows| && AllOfWidth(r, len)
    ensures forall i :: 0 <= i < |r| ==> r[i] == Row(rows[i].tokens[..len], rows[i].length)
  {
    seq(|rows|, i requires 0 <= i < |rows| => Row(rows[i].tokens[..len], rows[i].length))
  }

  /** The batch with its token column (`width` wide) and its length column. */
  class BatchedDataDict {
    var rows: seq<Row>
    var width: nat
    var microBatchIndices: Option<seq<seq<Interval>>>
    var microBatchLengths: Option<seq<seq<nat>>>
    var elemCountsPerGb: Option<seq<nat>>

    ghost predicate Valid()
      reads this
    {
      AllOfWidth(rows, width)
    }

    constructor (rows: seq<Row>, width: nat)
      requires AllOfWidth(rows, width)
      ensures Valid() && this.rows == rows && this.width == width
      ensures microBatchIndices == None && microBatchLengths == None && elemCountsPerGb == None
    {
      this.rows, this.width := rows, width;
      microBatchIndices, microBatchLengths, elemCountsPerGb := None, None, None;
    }

    /** Sorts the rows by the given indices, in place. */
    method ReorderData(indices: seq<int>)
      requires Valid()
      modifies this`rows
      ensures Valid() && rows == Reordered(old(rows), indices)
      ensures IsPermutation(indices, |old(rows)|) ==> InRange(indices, |rows|) && Select(rows, indices) == old(rows)
    {
      ghost var before := rows;
      var order := SortedRange(Slice(indices, 0, |rows|));
      rows := Select(rows, order);
      if IsPermutation(indices, |before|) {
        ReorderThenSelect(before, indices);
      }
    }

    /** AssertionError (null) when the end lies past the tensors. */
    method SliceRows(start: nat, end: nat) returns (batch: BatchedDataDict?)
      requires Valid()
      ensures batch == null <==> end > |rows|
      ensures batch != null ==> fresh(batch) && batch.Valid() && batch.width == width
      ensures batch != null ==> batch.rows == Lists.Slice(rows, start, end)
      ensures batch != null ==>
                && batch.microBatchIndices == None && batch.microBatchLengths == None
                && batch.elemCountsPerGb == None
    {
      if end > |rows| {
        return null;
      }
      batch := new BatchedDataDict(Lists.Slice(rows, start, end), width);
    }

    /** The offset of global batch `b` by running through the counts. */
    method CumulativeCount(b: nat) returns (cum: seq<nat>)
      requires elemCountsPerGb.Some? && b < |elemCountsPerGb.value|
      ensures |cum| == |elemCountsPerGb.value| + 1
      ensures forall i :: 0 <= i < |cum| ==> cum[i] == BatchStart(elemCountsPerGb.value, i)
    {
      cum := [0];
      for i := 0 to |elemCountsPerGb.value|
        invariant |cum| == i + 1
        invariant forall k :: 0 <= k <= i ==> cum[k] == BatchStart(elemCountsPerGb.value, k)
      {
        cum := cum + [cum[i] + elemCountsPerGb.value[i]];
      }
    }

    /** Where global batch `b` starts and ends; None stands for the exceptions: an index out
        of range or a missing batch size. */
    ghost function BatchRange(b: nat, batchSize: Option<nat>): Option<Interval>
      reads this
    {
      match elemCountsPerGb
      case Some(counts) =>
        if microBatchIndices.Some? && b < |counts|
        then Some(Interval(BatchStart(counts, b), BatchStart(counts, b + 1))) else None
      case None =>
        if batchSize.Some? then Some(Interval(batchSize.value * b, batchSize.value * (b + 1))) else None
    }

    /** Global batch `b` has no microbatch lists to give although there are some. */
    ghost predicate MissingLists(b: nat)
      reads this
    {
      microBatchIndices.Some? &&
      (microBatchLengths.None? || b >= |microBatchIndices.value| || b >= |microBatchLengths.value|)
    }

    /** One global batch with its microbatch lists. */
    method GetBatch(b: nat, batchSize: Option<nat>) returns (batch: BatchedDataDict?)
      requires Valid()
      ensures batch == null <==>
                BatchRange(b, batchSize).None? || BatchRange(b, batchSize).value.end > |rows| || MissingLists(b)
      ensures batch != null ==> fresh(batch) && batch.Valid() && batch.width == width
      ensures batch != null ==>
                var range := BatchRange(b, batchSize).value;
                batch.rows == Lists.Slice(rows, range.start, range.end)
      ensures batch != null && microBatchIndices.Some? ==>
                && batch.microBatchIndices == Some([microBatchIndices.value[b]])
                && batch.microBatchLengths == Some([microBatchLengths.value[b]])
      ensures batch != null && microBatchIndices.None? ==>
                batch.microBatchIndices == None && batch.microBatchLengths == None
      ensures batch != null ==>
                batch.elemCountsPerGb == if elemCountsPerGb.Some? then Some([elemCountsPerGb.value[b]]) else None
    {
      var counts: Option<nat> := None;
      var start, end: nat := 0, 0;
      if elemCountsPerGb.Some? {
        if microBatchIndices.None? || b >= |elemCountsPerGb.value| {
          return null;
        }
        counts := Some(elemCountsPerGb.value[b]);
        var cum := CumulativeCount(b);
        start, end := cum[b], cum[b + 1];
      } else if batchSize.Some? {
        start, end := batchSize.value * b, batchSize.value * (b + 1);
      } else {
        return null;
      }
      batch := SliceRows(start, end);
      if batch == null {
        return;
      }
      if microBatchIndices.Some? {
        if microBatchLengths.None? || b >= |microBatchIndices.value| || b >= |microBatchLengths.value| {
          return null;
        }
        batch.microBatchIndices := Some([microBatchIndices.value[b]]);
        batch.microBatchLengths := Some([microBatchLengths.value[b]]);
        batch.elemCountsPerGb := if counts.Some? then Some([counts.value]) else None;
      }
    }

    /** Narrows the token column in place; RuntimeError when it is shorter. */
    method TruncateTensors(len: nat) returns (ok: bool)
      requires Valid()
      modifies this`rows, this`width
      ensures Valid() && ok == (len <= old(width))
      ensures !ok ==> rows == old(rows) && width == old(width)
      ensures ok ==> rows == Narrowed(old(rows), len) && width == len
    {
      ok := len <= width;
      if ok {
        rows, width := Narrowed(rows, len), len;
      }
    }

    /** Without exactly one list of intervals and a list of lengths the iterators raise
        AssertionError, or IndexError when there is no first list of lengths. */
    predicate HasLists()
      reads this
    {
      && microBatchIndices.Some? && |microBatchIndices.value| == 1
      && microBatchLengths.Some? && microBatchLengths.value != []
    }

    /** `zip` stops at the end of the shorter list. */
    function Steps(): nat
      requires HasLists()
      reads this
    {
      Min(|microBatchIndices.value[0]|, |microBatchLengths.value[0]|)
    }

    ghost predicate InBounds(iv: Interval, len: nat)
      reads this
    {
      iv.end <= |rows| && len <= width
    }

    /** Dynamic shapes: each microbatch is sliced out and truncated to its own length. */
    method DynamicMicrobatches() returns (ok: bool, mbs: seq<seq<Row>>)
      requires Valid()
      ensures ok <==> HasLists() && forall j :: 0 <= j < Steps() ==>
                InBounds(microBatchIndices.value[0][j], microBatchLengths.value[0][j])
      ensures ok ==> |mbs| == Steps() && forall j :: 0 <= j < |mbs| ==>
                var iv := microBatchIndices.value[0][j];
                var sliced := Lists.Slice(rows, iv.start, iv.end);
                AllOfWidth(sliced, width) && mbs[j] == Narrowed(sliced, microBatchLengths.value[0][j])
    {
      if !HasLists() {
        return false, [];
      }
      var ivs, lens := microBatchIndices.value[0], microBatchLengths.value[0];
      mbs := [];
      for j := 0 to Steps()
        invariant |mbs| == j
        invariant forall k :: 0 <= k < j ==> InBounds(ivs[k], lens[k])
        invariant forall k :: 0 <= k < j ==>
          var sliced := Lists.Slice(rows, ivs[k].start, ivs[k].end);
          AllOfWidth(sliced, width) && mbs[k] == Narrowed(sliced, lens[k])
      {
        var mb := SliceRows(ivs[j].start, ivs[j].end);
        if mb == null {
          return false, [];
        }
        var narrowed := mb.TruncateTensors(lens[j]);
        if !narrowed {
          return false, [];
        }
        mbs := mbs + [mb.rows];
      }
      ok := true;
    }

    /** Packable sequences: each microbatch is sliced out as it is. */
    method PackableMicrobatches() returns (ok: bool, mbs: seq<seq<Row>>)
      requires Valid()
      ensures ok <==> HasLists() && forall j :: 0 <= j < Steps() ==> microBatchIndices.value[0][j].end <= |rows|
      ensures ok ==> |mbs| == Steps() && forall j :: 0 <= j < |mbs| ==>
                mbs[j] == Lists.Slice(rows, microBatchIndices.value[0][j].start, microBatchIndices.value[0][j].end)
    {
      if !HasLists() {
        return false, [];
      }
      var ivs := microBatchIndices.value[0];
      mbs := [];
      for j := 0 to Steps()
        invariant |mbs| == j
        invariant forall k :: 0 <= k < j ==> ivs[k].end <= |rows|
        invariant forall k :: 0 <= k < j ==> mbs[k] == Lists.Slice(rows, ivs[k].start, ivs[k].end)
      {
        var mb := SliceRows(ivs[j].start, ivs[j].end);
        if mb == null {
          return false, [];
        }
        mbs := mbs + [mb.rows];
      }
      ok := true;
    }
  }

  /** Selecting with a permutation undoes reordering by it. */
  lemma ReorderThenSelect(rows: seq<Row>, order: seq<int>)
    requires IsPermutation(order, |rows|)
    ensures |Reordered(rows, order)| == |rows| && InRange(order, |rows|)
    ensures Select(Reordered(rows, order), order) == rows
  {
    PermutationRange(order, |rows|);
    assert Slice(order, 0, |rows|) == order;
    SortInvertsPermutation(order, |rows|);
    var inv := SortedRange(order);
    forall i | 0 <= i < |rows| ensures inv[order[i]] == i {
      // both positions carry the value order[i]; a permutation has it once
      var j := inv[order[i]];
      assert order[j] == order[i];
      if i != j { PermutationDistinct(order, |rows|, Min(i, j), Max(i, j)); }
    }
  }

  // ---------------------------------------------------------------- what the iterators cover

  function Pieces<T>(rows: seq<T>, ivs: seq<Interval>): (r: seq<seq<T>>)
    ensures |r| == |ivs| && forall j :: 0 <= j < |ivs| ==> r[j] == Slice(rows, ivs[j].start, ivs[j].end)
  {
    seq(|ivs|, j requires 0 <= j < |ivs| => Slice(rows, ivs[j].start, ivs[j].end))
  }

  lemma LastTile<T>(rows: seq<T>, ivs: seq<Interval>, n: nat, front: seq<Interval>, start: nat)
    requires Tiles(ivs, n) && n <= |rows| && ivs != [] && front == ivs[..|ivs| - 1] && start == ivs[|ivs| - 1].start
    ensures start < n && Tiles(front, start)
    ensures Pieces(rows, ivs) == Pieces(rows, front) + [rows[start..n]]
  {}

  /** Microbatches that tile a batch hand out every row once, in order. */
  lemma {:induction false} TilesCoverRows<T>(rows: seq<T>, ivs: seq<Interval>, n: nat)
    requires Tiles(ivs, n) && n <= |rows|
    ensures Flatten(Pieces(rows, ivs)) == rows[..n]
    decreases |ivs|
  {
    if ivs != [] {
      var m := |ivs| - 1;
      LastTile(rows, ivs, n, ivs[..m], ivs[m].start);
      TilesCoverRows(rows, ivs[..m], ivs[m].start);
      FlattenSnoc(Pieces(rows, ivs[..m]), rows[ivs[m].start..n]);
    }
  }

  /** The same row, perhaps with less padding: its length and all its real tokens are kept. */
  predicate KeepsRow(short: Row, full: Row) {
    short.length == full.length && Slice(short.tokens, 0, full.length) == Slice(full.tokens, 0, full.length)
  }

  predicate KeepsRows(short: seq<Row>, full: seq<Row>) {
    |short| == |full| && forall i :: 0 <= i < |short| ==> KeepsRow(short[i], full[i])
  }

  /** Narrowing keeps the rows when the length is at least their own, or the tensor is no wider. */
  lemma NarrowedKeepsRows(rows: seq<Row>, width: nat, len: nat)
    requires AllOfWidth(rows, width) && len <= width
    requires forall i :: 0 <= i < |rows| ==> Min(rows[i].length, width) <= len
    ensures KeepsRows(Narrowed(rows, len), rows)
  {}

  lemma {:induction false} FlattenKeepsRows(short: seq<seq<Row>>, full: seq<seq<Row>>)
    requires |short| == |full| && forall j :: 0 <= j < |short| ==> KeepsRows(short[j], full[j])
    ensures KeepsRows(Flatten(short), Flatten(full))
  {
    if short != [] {
      FlattenKeepsRows(short[..|short| - 1], full[..|full| - 1]);
    }
  }
}
