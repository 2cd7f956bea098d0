/** Failure-compatible results, used where the source throws. */
module Wrappers {

  datatype Option<+T> = None | Some(value: T)

  /** A value, or the error that the source would have thrown instead. */
  datatype Result<+T, +E> = Success(value: T) | Failure(error: E) {
    predicate IsFailure() {
      Failure?
    }

    function PropagateFailure<U>(): Result<U, E>
      requires Failure?
    {
      Failure(error)
    }

    function Extract(): T
      requires Success?
    {
      value
    }
  }

  /** Like Result, for operations that return nothing. */
  datatype Outcome<+E> = Pass | Fail(error: E) {
    predicate IsFailure() {
      Fail?
    }

    function PropagateFailure<U>(): Result<U, E>
      requires Fail?
    {
      Failure(error)
    }
  }

  /** How a call ends: normally, with a thrown error, or not at all because the process crashed. */
  datatype Attempt<+T, +E> = Done(value: T) | Threw(error: E) | Crashed {
    predicate IsFailure() {
      !Done?
    }

    function PropagateFailure<U>(): Attempt<U, E>
      requires IsFailure()
    {
      if Threw? then Threw(error) else Crashed
    }

    function Extract(): T
      requires !IsFailure()
    {
      value
    }
  }
}
