/** Option and Result, shared by every module of the model. */
module Wrappers {

  /** A value that may be absent: JavaScript's `null`/`undefined` for an optional field. */
  datatype Option<+T> = None | Some(value: T)

  /** A validation or request outcome: a value, or the reason it was refused. */
  datatype Result<+R, +E> = Success(value: R) | Failure(error: E)

  function Min(a: int, b: int): int
  {
    if a <= b then a else b
  }
}
