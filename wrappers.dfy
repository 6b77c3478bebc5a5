/** Failure-carrying values used for the fallible calls of the command. */
module Wrappers {

  datatype Option<+T> = None | Some(value: T)

  datatype Result<+T, +E> = Success(value: T) | Failure(error: E)
}
