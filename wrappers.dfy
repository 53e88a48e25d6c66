/** Optional values and error-or-nothing outcomes, standing in for Go's
    nil-able pointers and `error` results. */
module Wrappers {

  /** A value that may be absent (a Go pointer that may be nil). */
  datatype Option<+T> = None | Some(value: T) {
    function GetOr(default: T): T {
      match this
      case Some(v) => v
      case None => default
    }
  }

  /** A value or an error (a Go `(T, error)` pair where exactly one is meaningful). */
  datatype Result<+T, +E> = Ok(value: T) | Err(error: E)

  /** Nothing (Go's nil error) or an error. */
  datatype Outcome<+E> = Pass | Fail(error: E)
}
