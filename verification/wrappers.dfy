/** Failure-compatible wrappers shared by the whole model. */
module Wrappers {

  /** A value that may be missing: an optional JavaScript property that is `undefined` or holds a value. */
  datatype Option<+T> = None | Some(value: T) {

    /** The value, or `default` when missing: JavaScript's destructuring default `{ x = default }`. */
    function GetOr(default: T): T
    {
      match this
      case Some(v) => v
      case None => default
    }
  }

  /** The outcome of an operation that either produces a value or fails with an error value. */
  datatype Result<+T, +E> = Success(value: T) | Failure(error: E)
}
