/** Option and Result values standing for Python's `None` and for raised exceptions. */
module Wrappers {

  datatype Option<+T> = None | Some(value: T)

  /** Either the operation went through, or it was refused with an error value. */
  datatype Outcome<+E> = Pass | Fail(error: E)

  datatype Result<+T, +E> = Success(value: T) | Failure(error: E)
}
