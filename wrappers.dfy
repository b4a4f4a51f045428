/** Option and Result, the two failure-carrying shapes used throughout the model. */
module Wrappers {

  datatype Option<+T> = None | Some(value: T)

  /** A Python call either returns a value or raises an exception carrying a message. */
  datatype Result<+R, +E> = Success(value: R) | Failure(error: E)
}
