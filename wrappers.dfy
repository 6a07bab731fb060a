/** Option and Result, the two failure-compatible wrappers the model uses. */
module Wrappers {

  /** `None` stands for a missing value (in the JavaScript model: `undefined`). */
  datatype Option<+T> = None | Some(value: T)

  /** A computation that either yields a value or throws an error. */
  datatype Result<+T, +E> = Success(value: T) | Failure(error: E) {

    predicate IsFailure() {
      Failure?
    }

    function PropagateFailure<U>(): Result<U, E>
      requires Failure?
    {
      Failure(error)
    }

    function Extract(): T
      requires Success?
    {
      value
    }
  }
}
