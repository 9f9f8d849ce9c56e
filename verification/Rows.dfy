/** Rows and column lists, as both directions of a copy use them. */
module Rows {
  import opened Bytes

  type Datum = int

  /** A row as the executor sees it, NULL as None. */
  type Row = seq<Option<Datum>>

  /** attnums names attributes of a relation with that many. */
  predicate InRange(attnums: seq<nat>, natts: nat)
  {
    forall i | 0 <= i < |attnums| :: 1 <= attnums[i] <= natts
  }
}
