/** Option and Result: the model's stand-ins for C#'s null and for thrown exceptions. */
module Wrappers {

  /** A value that may be absent (C#'s `null`). */
  datatype Option<+T> = None | Some(value: T)

  /** The outcome of an operation that may throw: the value, or the error it threw. */
  datatype Result<+T, +E> = Success(value: T) | Failure(error: E)
}
