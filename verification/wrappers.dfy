/** Option and Result, the two failure-carrying datatypes the model uses. */
module Wrappers {

  /** A value that may be absent; Python's `None` return is `None` here. */
  datatype Option<+T> = None | Some(value: T)

  /** Either a value or an error; a raised exception is a `Failure`. */
  datatype Result<+T, +E> = Success(value: T) | Failure(error: E)
}
