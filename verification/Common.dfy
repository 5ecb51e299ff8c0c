/** Small shared vocabulary. */
module Common {

  /** A value that may be absent: a nil, a missing row, or an error return. */
  datatype Option<+T> = None | Some(value: T)

  /** Where a transaction fails, if it does. The store calls return the error of that step. */
  datatype TxFault = NoFault | BeginFails | ReadFails | DeleteFails | InsertFails | CommitFails

  function Max(a: int, b: int): int {
    if a >= b then a else b
  }

  function Min(a: int, b: int): int {
    if a <= b then a else b
  }

  /** No id repeats. */
  ghost predicate Distinct(ids: seq<string>) {
    forall i, j :: 0 <= i < j < |ids| ==> ids[i] != ids[j]
  }
}
