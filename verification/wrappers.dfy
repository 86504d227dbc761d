/** Small failure-carrying datatypes used across the model. */
module Wrappers {

  datatype Option<+T> = None | Some(value: T)

  /** A call that either yields a value or reports an error (an exception in the source). */
  datatype Result<+R, +E> = Success(value: R) | Failure(error: E)

  /** A call that yields nothing on success or reports an error. */
  datatype Outcome<+E> = Pass | Fail(error: E)
}
