/** Optional values and success/failure outcomes, standing for Python's `None`
    and for the exceptions the store raises. */
module Wrappers {

  datatype Option<+T> = None | Some(value: T) {
    function GetOr(default: T): T {
      match this
      case Some(v) => v
      case None => default
    }
  }

  /** A write either succeeds or fails with an error and changes nothing. */
  datatype Outcome<+E> = Pass | Fail(error: E)
}
