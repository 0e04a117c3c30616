/** Failure-carrying result types shared by every module of the model. */
module Wrappers {

  /** Python's `None` / present value. */
  datatype Option<+T> = None | Some(value: T) {
    /** The value if present, otherwise `default` (Python `x if x is not None else default`). */
    function GetOr(default: T): T {
      match this
      case Some(v) => v
      case None => default
    }

    predicate IsFailure() {
      None?
    }

    function PropagateFailure<U>(): Option<U>
      requires None?
    {
      None
    }

    function Extract(): T
      requires Some?
    {
      value
    }
  }

  /** A computation that either produced a value or raised. */
  datatype Result<+T, +E> = Success(value: T) | Failure(error: E) {
    predicate IsFailure() {
      Failure?
    }

    function PropagateFailure<U>(): Result<U, E>
      requires Failure?
    {
      Failure(this.error)
    }

    function Extract(): T
      requires Success?
    {
      value
    }
  }
}
