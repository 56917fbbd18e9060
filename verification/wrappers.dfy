/** Optional values and success-or-failure results, standing in for
    JavaScript's `undefined`/`null` and for thrown errors. */
module Wrappers {

  /** `None` is JavaScript's `undefined` or `null`. */
  datatype Option<+T> = None | Some(value: T) {

    /** The value, or `default` when absent (JavaScript's `??`). */
    function GetOr(default: T): T {
      match this
      case Some(v) => v
      case None => default
    }
  }

  /** `Failure(e)` is an operation that throws `e`. */
  datatype Result<+T, +E> = Success(value: T) | Failure(error: E)
}
