/** Wrappers used across the model: a nullable value and
    the outcome of a service operation that may be rejected. */
module Wrappers {

  /** A Java reference that may be null. */
  datatype Option<+T> = None | Some(value: T)

  /** The value an operation returns, or the reason it threw. */
  datatype Result<+T, +E> = Success(value: T) | Failure(error: E)
}
