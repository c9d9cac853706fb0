/** Failure-carrying return values, standing in for Go's `(value, error)` pairs and nil pointers. */
module Wrappers {

  datatype Option<+T> = None | Some(value: T)

  datatype Result<+T, +E> = Success(value: T) | Failure(error: E)
}
