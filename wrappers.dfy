/** Optional values and results: Go's `error` return and `(value, error)` pairs. */
module Wrappers {

  /** `None` stands for Go's nil error, `Some(e)` for a non-nil one. */
  datatype Option<+T> = None | Some(value: T)

  /** A value or the error that replaced it. */
  datatype Result<+T, +E> = Ok(value: T) | Err(error: E)
}
