/** Optional values and success/failure results. */
module Wrappers {

  /** A value that may be absent; models TypeScript's `X | undefined`. */
  datatype Option<+T> = None | Some(value: T)

  /** The outcome of an operation that can throw: the value it returns, or what it throws. */
  datatype Result<+R, +E> = Success(value: R) | Failure(error: E)
}
