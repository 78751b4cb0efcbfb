/** Failure-compatible wrappers shared by the whole model. */
module Wrappers {

  /** An optional value; for a JSON-LD node, None stands for an absent key. */
  datatype Option<+T> = None | Some(value: T)

  /** The outcome of a step that may raise: a value, or the exception raised. */
  datatype Result<+T, +E> = Success(value: T) | Failure(error: E) {

    predicate IsFailure() {
      Failure?
    }

    function PropagateFailure<U>(): Result<U, E>
      requires Failure?
    {
      Failure(error)
    }

    function Extract(): T
      requires Success?
    {
      value
    }
  }
}
