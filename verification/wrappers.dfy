/** Failure-compatible wrappers: a nullable handle and the outcome of an
    operation that may throw. */
module Wrappers {

  /** A smart pointer that may be null. */
  datatype Option<+T> = None | Some(value: T)

  /** The outcome of an operation that either returns a value or throws. */
  datatype Result<+T, +E> = Success(value: T) | Failure(error: E)
}
