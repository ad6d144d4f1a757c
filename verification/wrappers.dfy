/** Failure-compatible wrappers for the program's `(T, error)` results. */
module Wrappers {

  /** An optional value; the model of a Go `(T, error)` pair whose error is ignored. */
  datatype Option<+T> = None | Some(value: T)

  /** A value or an error; the model of a Go `(T, error)` pair whose error is inspected. */
  datatype Result<+T, +E> = Success(value: T) | Failure(error: E)
}
