/** Failure-carrying results, used for the exceptions and error returns of the sync module. */
module Wrappers {

  datatype Option<+T> = None | Some(value: T)

  /** A value, or the message of the error that replaced it. */
  datatype Result<+R, +E> = Success(value: R) | Failure(error: E)
}
