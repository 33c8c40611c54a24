/** Option and Result, the two failure-carrying datatypes the rest of the model uses
    for Go's `nil` results and `(value, error)` pairs. */
module Wrappers {

  datatype Option<+T> = None | Some(value: T)

  datatype Result<+T, +E> = Success(value: T) | Failure(error: E)
}
