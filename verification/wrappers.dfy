/** Failure-carrying datatypes used across the model: `Option` for values a
    JavaScript object may leave `null`/`undefined`, `Result` for operations
    that throw. */
module Wrappers {

  datatype Option<+T> = None | Some(value: T) {

    /** The value if present, otherwise `default`. This is JavaScript's
        `x || d` wherever a present value that is falsy reads the same as
        the default, as with `definition || ''`. */
    function GetOr(default: T): T {
      match this
      case Some(v) => v
      case None => default
    }
  }

  datatype Result<+R, +E> = Success(value: R) | Failure(error: E) {

    predicate IsFailure() {
      Failure?
    }

    function PropagateFailure<U>(): Result<U, E>
      requires Failure?
    {
      Failure(error)
    }

    function Extract(): R
      requires Success?
    {
      value
    }
  }
}
