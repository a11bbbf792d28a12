/** Failure-carrying datatypes shared by the whole model. */
module Outcomes {

  /** A value that may be missing: a Python call that raised, or a key that is absent. */
  datatype Option<+T> = None | Some(value: T)

  /** The result of an operation that either produces a value or stops with an error. */
  datatype Result<+T, +E> = Success(value: T) | Failure(error: E)
}
