/** Option and Result, shared by the other modules. */
module Wrappers {

  /** An optional value; `None` plays the part of Go's nil. */
  datatype Option<+T> = None | Some(value: T)

  /** Either a value or the error that prevented computing it. */
  datatype Result<+R, +E> = Success(value: R) | Failure(error: E)
}
