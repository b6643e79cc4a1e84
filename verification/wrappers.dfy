/** Failure-compatible result types shared by the whole model. */
module Wrappers {

  /** A value that may be absent (a JavaScript `undefined` or `null` argument). */
  datatype Option<+T> = None | Some(value: T) {

    /** The carried value, or `default` when there is none: an absent argument defaults to `default`. */
    function GetOr(default: T): T {
      if Some? then value else default
    }
  }

  /** The outcome of an operation that either yields a value or raises an error. */
  datatype Result<+T, +E> = Success(value: T) | Failure(error: E) {

    predicate IsFailure() {
      Failure?
    }

    function PropagateFailure<U>(): Result<U, E>
      requires Failure?
    {
      Failure(error)
    }

    function Extract(): T
      requires Success?
    {
      value
    }
  }
}
