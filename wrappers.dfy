/** Failure-carrying return values: Go's `(T, error)` pairs and bare `error` returns. */
module Wrappers {

  datatype Option<+T> = None | Some(value: T)

  /** A value or an error, as in Go's `(value, err)` result pairs. */
  datatype Result<+T, +E> = Success(value: T) | Failure(error: E)

  /** A Go function that returns only an `error`: `nil` is `Pass`. */
  datatype Outcome<+E> = Pass | Fail(error: E)
}
