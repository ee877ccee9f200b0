/** The octets that connections carry. */
module Bytes {
  type byte = b: int | 0 <= b < 256

  /** What is on a connection after these were sent, one after the other. */
  function Flatten(batches: seq<seq<byte>>): seq<byte> {
    if batches == [] then [] else Flatten(batches[..|batches| - 1]) + batches[|batches| - 1]
  }

  lemma FlattenMore(batches: seq<seq<byte>>, batch: seq<byte>)
    ensures Flatten(batches + [batch]) == Flatten(batches) + batch
  {
    assert (batches + [batch])[..|batches|] == batches;
  }
}
