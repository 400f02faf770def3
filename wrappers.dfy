/** Option, Result and Outcome: the model's stand-ins for Python's None and
    for raised exceptions. */
module Wrappers {

  datatype Option<+T> = None | Some(value: T)

  /** A value, or the exception that was raised instead. */
  datatype Result<+R, +E> = Success(value: R) | Failure(error: E)

  /** A function that returns None in Python, or the exception it raised. */
  datatype Outcome<+E> = Pass | Fail(error: E)
}
