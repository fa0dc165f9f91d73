/** Failure-carrying result types shared by every module of the model. */
module Wrappers {

  /** A value that may be absent: the model's stand-in for a nullable Java reference. */
  datatype Option<+T> = None | Some(value: T)

  /** Either the value an operation returns or the error it raises instead. */
  datatype Result<+T, +E> = Success(value: T) | Failure(error: E)
}
