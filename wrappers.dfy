/** Option and Result: the nil-or-value and value-or-error shapes of Go's
    `(T, error)` returns, used across the model. */
module Wrappers {

  datatype Option<+T> = None | Some(value: T)

  datatype Result<+T, +E> = Success(value: T) | Failure(error: E)
}
