/** Optional values and results with an error value. */
module Wrappers {

  /** A value that may be absent (TypeScript's `T | undefined` or `T | null`). */
  datatype Option<+T> = None | Some(value: T)

  /** The outcome of an operation that either returns a value or throws. */
  datatype Result<+R, +E> = Success(value: R) | Failure(error: E)
}
