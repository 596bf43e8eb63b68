/** Wrappers for the Go `(value, error)` return convention. */
module Wrappers {

  datatype Option<+T> = None | Some(value: T)

  /** `Success(v)` stands for a nil error, `Failure(e)` for a non-nil one. */
  datatype Result<+R, +E> = Success(value: R) | Failure(error: E)
}
