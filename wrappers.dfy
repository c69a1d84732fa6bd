/** Success/failure wrappers shared by the model's modules. */
module Wrappers {

  datatype Option<+T> = None | Some(value: T)

  /** The outcome of an operation that either completes or throws `error`. */
  datatype Outcome<+E> = Pass | Fail(error: E)

  /** A value, or the error an operation threw instead of returning one. */
  datatype Result<+T, +E> = Success(value: T) | Failure(error: E)
}
