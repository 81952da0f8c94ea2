/** Option and Result values standing in for Go's nil pointers and
    `(value, error)` return pairs. */
module Wrappers {

  /** A Go pointer: `None` is nil. */
  datatype Option<+T> = None | Some(value: T)

  /** A Go `(value, error)` pair where exactly one side is meaningful. */
  datatype Result<+T, +E> = Ok(value: T) | Err(error: E)
}
