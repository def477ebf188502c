/** Failure-carrying result types shared by every module of the model. */
module Wrappers {

  datatype Option<+T> = None | Some(value: T) {
    function GetOr(default: T): T {
      match this
      case Some(v) => v
      case None => default
    }
  }

  datatype Result<+R, +E> = Success(value: R) | Failure(error: E) {
    predicate IsFailure() {
      Failure?
    }

    function PropagateFailure<U>(): Result<U, E>
      requires Failure?
    {
      Failure(error)
    }

    function Extract(): R
      requires Success?
    {
      value
    }
  }

  /** A call that returns nothing but may fail (a rejected promise, a thrown error). */
  datatype Outcome<+E> = Pass | Fail(error: E) {
    predicate IsFailure() {
      Fail?
    }

    function PropagateFailure<U>(): Result<U, E>
      requires Fail?
    {
      Failure(error)
    }
  }

  /** `Pass` when `condition` holds, otherwise the failure `error`. */
  function Need<E>(condition: bool, error: E): Outcome<E>
  {
    if condition then Pass else Fail(error)
  }

  /** The value of a present option, or the failure `error`. */
  function Require<T, E>(o: Option<T>, error: E): Result<T, E>
  {
    match o
    case Some(v) => Success(v)
    case None => Failure(error)
  }
}
