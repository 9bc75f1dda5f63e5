/** Optional values and results with an error case, used across the ledger model. */
module Wrappers {

  /** A value that may be absent: a missing cell, a missing date, a missing table. */
  datatype Option<+T> = None | Some(value: T)

  /** The outcome of an operation that can be refused with an error value. */
  datatype Result<+R, +E> = Success(value: R) | Failure(error: E)
}
