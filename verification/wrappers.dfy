/** Optional values and failure results shared by the model's modules. */
module Wrappers {

  /** A value that may be absent (Python's `None`). */
  datatype Option<+T> = None | Some(value: T)

  /** The outcome of an operation that may raise. */
  datatype Result<+R, +E> = Success(value: R) | Failure(error: E)
}
