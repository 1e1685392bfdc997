/** Option and Result wrappers used across the model. */
module Wrappers {

  /** A value that may be absent; stands for TypeScript's `T | undefined`. */
  datatype Option<+T> = None | Some(value: T)

  /** The outcome of an operation that can throw in the source. */
  datatype Result<+T, +E> = Success(value: T) | Failure(error: E)
}
