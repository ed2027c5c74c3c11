/** Option and Result, the failure-carrying datatypes every other module uses. */
module Wrappers {

  /** A value that may be absent; Python's `None` is `None` here. */
  datatype Option<+T> = None | Some(value: T) {

    /** The wrapped value, or `default` when absent. */
    function GetOr(default: T): T {
      match this
      case Some(v) => v
      case None => default
    }
  }

  /** Either a successful value or the error a Python function would raise. */
  datatype Result<+R, +E> = Success(value: R) | Failure(error: E)
}
