/** Option and Result values standing in for Go's `(value, ok)` and `(value, error)` pairs. */
module Wrappers {

  /** An optional value: `None` where Go reports "absent" or a nil error. */
  datatype Option<+T> = None | Some(value: T)

  /** The outcome of a call that either yields a value or fails with an error. */
  datatype Result<+T, +E> = Success(value: T) | Failure(error: E)
}
