/** Option and Result, the failure-carrying values used throughout the model. */
module Wrappers {

  /** A value that may be absent: Go's `(T, bool)` pairs and nil pointers. */
  datatype Option<+T> = None | Some(value: T)

  /** A value or a typed error: Go's `(T, error)` pairs. */
  datatype Result<+T, +E> = Success(value: T) | Failure(error: E)
}
