/** Option and Result, the stand-ins for Go's nil pointers and (value, error) pairs. */
module Wrappers {

  /** `None` plays the part of a nil pointer. */
  datatype Option<+T> = None | Some(value: T)

  /** A Go `(value, error)` return: `Failure` carries the text of the error. */
  datatype Result<+T> = Success(value: T) | Failure(error: string)
}
