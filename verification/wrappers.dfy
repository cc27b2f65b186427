/** Option and Result, the model's stand-ins for `null` and for exceptions. */
module Wrappers {

  /** `None` plays the part of a C# `null` reference. */
  datatype Option<+T> = None | Some(value: T)

  /** `Failure` plays the part of an exception thrown by the modelled code. */
  datatype Result<+R, +E> = Success(value: R) | Failure(error: E) {

    predicate IsFailure() {
      Failure?
    }

    function PropagateFailure<U>(): Result<U, E>
      requires Failure?
    {
      Failure(error)
    }

    function Extract(): R
      requires Success?
    {
      value
    }
  }
}
