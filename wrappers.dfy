/** Option and Result, the failure-compatible wrappers used by the model. */
module Wrappers {

  datatype Option<+T> = None | Some(value: T)

  /** The value of an evaluation that may raise one of Python's lookup errors. */
  datatype Result<+R, +E> = Success(value: R) | Failure(error: E) {

    predicate IsFailure() {
      Failure?
    }

    function PropagateFailure<U>(): Result<U, E>
      requires Failure?
    {
      Failure(error)
    }

    function Extract(): R
      requires Success?
    {
      value
    }
  }
}
