/** Optional values and results with an error, as used throughout the model. */
module Wrappers {

  /** A value that may be missing (an optional property of a JavaScript object). */
  datatype Option<+T> = None | Some(value: T)

  /** The outcome of an operation that either returns a value or throws. */
  datatype Result<+R, +E> = Success(value: R) | Failure(error: E)
}
