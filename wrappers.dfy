/** Failure-carrying results: the C# exceptions and C error returns of the model. */
module Wrappers {

  datatype Option<+T> = None | Some(value: T)

  /** A value or the exception that replaced it. */
  datatype Result<+T, +E> = Success(value: T) | Failure(error: E)

  /** Success or the exception of an operation that returns nothing. */
  datatype Outcome<+E> = Pass | Fail(error: E)

  function Min(a: int, b: int): int
  {
    if a <= b then a else b
  }
}
