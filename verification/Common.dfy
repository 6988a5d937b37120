/** Datatypes shared by the models. */
module Common {

  datatype Option<+T> = None | Some(value: T)

  /** The ordinals first to end - 1. */
  datatype Range = Range(first: nat, end: nat)

  /** The results of reading and indexing that the models distinguish. */
  datatype IOStatus = Success | ZeroBytesRead | NoOffsetInData | PayloadTruncatedError | AllRequestedRead | BufferConflict
}
