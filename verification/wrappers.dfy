/** Failure-carrying values used across the model: an absent lookup result
    (JavaScript's `undefined`) and an operation that either succeeds or
    throws. */
module Wrappers {

  datatype Option<+T> = None | Some(value: T)

  datatype Result<+T, +E> = Success(value: T) | Failure(error: E)
}
