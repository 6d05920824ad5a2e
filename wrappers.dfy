/** Failure-carrying results: the model's stand-in for the exceptions the game throws. */
module Wrappers {

  datatype Option<+T> = None | Some(value: T)

  datatype Result<+R, +E> = Success(value: R) | Failure(error: E)

  /** Pass or Fail, for operations that only succeed or throw. */
  datatype Outcome<+E> = Pass | Fail(error: E)
}
