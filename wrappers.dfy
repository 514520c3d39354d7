/** Option and Result, used for Python's None defaults and raised exceptions. */
module Wrappers {

  datatype Option<+T> = None | Some(value: T)

  /** A value, or the error the Python code would have raised instead. */
  datatype Result<+T, +E> = Success(value: T) | Failure(error: E)
}
