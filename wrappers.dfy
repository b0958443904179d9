/** Option, Result and Outcome: the model's stand-ins for Python's `None`
    and for a raised exception. */
module Wrappers {

  datatype Option<+T> = None | Some(value: T)

  /** A computation that either produces a value or raises `error`. */
  datatype Result<+T, +E> = Success(value: T) | Failure(error: E)

  /** A computation that returns nothing or raises `error`. */
  datatype Outcome<+E> = Pass | Fail(error: E)
}
