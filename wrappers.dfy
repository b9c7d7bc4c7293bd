/** Option, Result and Outcome: absent values, calls that can fail with a message. */
module Wrappers {

  datatype Option<+T> = None | Some(value: T) {
    /** The value, or `default` when absent (JavaScript's `??`). */
    function GetOr(default: T): T {
      match this
      case Some(v) => v
      case None => default
    }
  }

  datatype Result<+T, +E> = Success(value: T) | Failure(error: E)

  /** The outcome of a call that returns nothing on success. */
  datatype Outcome<+E> = Pass | Fail(error: E)
}
