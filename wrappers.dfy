/** Option and Result, the two failure-carrying shapes the rest of the model uses. */
module Wrappers {

  /** A value that may be absent (Python's `None`). */
  datatype Option<+T> = None | Some(value: T)

  /** The value of a call that either returned or raised. */
  datatype Result<+R, +E> = Success(value: R) | Failure(error: E)
}
