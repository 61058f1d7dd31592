/** Failure-carrying datatypes shared by every module of the model. */
module Wrappers {

  /** A value that may be absent: Go's nil pointer or a (value, ok) pair. */
  datatype Option<+T> = None | Some(value: T)

  /** A value or an error: Go's (value, error) pair where exactly one is set. */
  datatype Result<+T, +E> = Success(value: T) | Failure(error: E) {
    predicate IsFailure() {
      Failure?
    }
  }
}
