/** Optional values and success/failure results, used wherever the Python code
    returns `None` or raises an exception that a caller sees. */
module Wrappers {

  /** A value that may be absent; `None` plays the part of Python's `None`. */
  datatype Option<+T> = None | Some(value: T) {

    /** The value, or `default` when absent. */
    function GetOr(default: T): T {
      match this
      case Some(v) => v
      case None => default
    }
  }

  /** Either a value or the text of the error that was raised instead. */
  datatype Result<+T, +E> = Success(value: T) | Failure(error: E)
}
