/** Rows of a `BatchedDataDict` (nemo_rl/distributed/batched_data_dict.py). */
module Rows {

  /** A row of the batch: its (padded) token ids and its real length. */
  datatype Row = Row(tokens: seq<int>, length: nat)

  function Lengths(rows: seq<Row>): (r: seq<nat>)
    ensures |r| == |rows| && forall i :: 0 <= i < |r| ==> r[i] == rows[i].length
  {
    seq(|rows|, i requires 0 <= i < |rows| => rows[i].length)
  }
}
