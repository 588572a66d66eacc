/**
 * The optional value used throughout the model for JavaScript's null / undefined,
 * and the outcome of an operation that either succeeds or fails with an error.
 */
module Wrappers {

  datatype Option<+T> = None | Some(value: T) {

    /** The value, or the given default when absent (`x ? f(x) : d`). */
    function GetOr(default: T): T {
      match this
      case Some(v) => v
      case None => default
    }
  }

  datatype Result<+R, +E> = Success(value: R) | Failure(error: E)
}
