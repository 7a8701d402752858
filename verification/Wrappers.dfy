/** The two result shapes the model uses for absent values and for C++ exceptions, and the lesser of two numbers. */
module Wrappers {

  datatype Option<+T> = None | Some(value: T)

  datatype Result<+T, +E> = Success(value: T) | Failure(error: E)

  function Least(a: int, b: int): int {
    if a < b then a else b
  }
}
