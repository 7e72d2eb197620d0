/** Failure-carrying return types shared by the modules of this project. */
module Wrappers {

  /** A value that may be absent, for JavaScript's `null` and `undefined`. */
  datatype Option<+T> = None | Some(value: T)

  /** The outcome of an operation that may throw in JavaScript. */
  datatype Result<+T, +E> = Success(value: T) | Failure(error: E)
}
