/** Option and Result: Go's `nil`-or-value and value-or-error returns. */
module Wrappers {

  /** A value that may be absent; `None` plays the part of Go's `nil`. */
  datatype Option<+T> = None | Some(value: T)

  /** A result or the error that replaced it. */
  datatype Result<+R, +E> = Success(value: R) | Failure(error: E)
}
