/** Failure-compatible datatypes shared by the other modules. */
module Wrappers {

  /** A value that may be absent: a JavaScript `null`, or a rejected provider call. */
  datatype Option<+T> = None | Some(value: T)

  /** The outcome of an operation that can fail with an error of type E. */
  datatype Result<+T, +E> = Success(value: T) | Failure(error: E)
}
