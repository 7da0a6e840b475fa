/** Optional values and success-or-error results, used for JavaScript's
    `undefined` fields and for operations that throw or reject. */
module Wrappers {

  datatype Option<+T> = None | Some(value: T) {

    /** Returns the value held in Some, or `default` when None. */
    function GetOr(default: T): T {
      match this
      case Some(v) => v
      case None => default
    }
  }

  /** A settled operation: a value, or the message of the error it threw. */
  datatype Result<+R, +E> = Success(value: R) | Failure(error: E)
}
