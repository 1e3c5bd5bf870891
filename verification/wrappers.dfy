/** Option and Result: the model's stand-ins for Go's nil pointers and
    nil interfaces, and for panics and (value, error) pairs. */
module Wrappers {

  /** `None` plays the part of a nil pointer, nil map or nil interface. */
  datatype Option<+T> = None | Some(value: T)

  /** A computation that either yields a value or fails with an error. */
  datatype Result<+R, +E> = Success(value: R) | Failure(error: E)
}
