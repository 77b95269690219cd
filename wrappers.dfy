/** Option and Result, the two failure-carrying value types the model uses
    for Go's nil pointers and its (value, error) returns. */
module Wrappers {

  datatype Option<+T> = None | Some(value: T)

  datatype Result<+R, +E> = Success(value: R) | Failure(error: E)
}
