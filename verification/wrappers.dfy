/** Absence and failure as values, usable with `:-`. */
module Wrappers {

  /** A value that may be missing, in place of Python's `None`. */
  datatype Option<+T> = None | Some(value: T)

  /** Either a value or the exception a Python call would have raised instead. */
  datatype Result<+T, +E> = Success(value: T) | Failure(error: E) {

    predicate IsFailure() {
      Failure?
    }

    function PropagateFailure<U>(): Result<U, E>
      requires Failure?
    {
      Failure(error)
    }

    function Extract(): T
      requires Success?
    {
      value
    }
  }
}
