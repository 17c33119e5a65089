/** Failure-carrying values standing in for Go's `(value, error)` returns. */
module Wrappers {

  datatype Option<+T> = None | Some(value: T)

  /** A Go `(T, error)` pair: either a value or the error that replaced it. */
  datatype Result<+T> = Ok(value: T) | Err(error: string)

  /** A Go call that returns only an `error`. */
  datatype Outcome = Pass | Fail(error: string)
}
