/** Option and Result: Dafny's stand-ins for Go's nil pointers and (value, error) pairs. */
module Wrappers {

  /** A Go pointer that may be nil: `None` is nil, `Some(v)` points at `v`. */
  datatype Option<+T> = None | Some(value: T)

  /** A Go result whose error is either nil (`Ok`) or set (`Err`). */
  datatype Result<+R, +E> = Ok(value: R) | Err(error: E) {

    /** The result, or `default` when the error was set (the error is dropped). */
    function GetOr(default: R): R {
      match this
      case Ok(v) => v
      case Err(_) => default
    }
  }
}
