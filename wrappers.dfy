/** Option and Result, used for JavaScript's falsy/missing values and for thrown errors. */
module Wrappers {

  /** A value that may be absent: `None` stands for `null`, `undefined` or another falsy value. */
  datatype Option<+T> = None | Some(value: T) {
    function GetOr(default: T): T {
      match this
      case Some(v) => v
      case None => default
    }
  }

  /** The outcome of a computation that can throw: `Failure` carries the error's message. */
  datatype Result<+T, +E> = Success(value: T) | Failure(error: E)
}
