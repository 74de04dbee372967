/** Optional values and the outcome of a call that may throw. */
module Wrappers {

  /** A value that may be absent: Java's `null` where the source allows it. */
  datatype Option<+T> = None | Some(value: T) {
    function GetOr(default: T): T {
      match this
      case Some(v) => v
      case None => default
    }
  }

  /** The outcome of a Java call: a value, or the exception it throws (named by its class). */
  datatype Result<+R, +E> = Success(value: R) | Failure(error: E)
}
