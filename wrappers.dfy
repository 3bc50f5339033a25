/** Failure-compatible result types shared by the view-model modules. */
module Wrappers {

  /** A value that may be absent (JavaScript's `undefined`). */
  datatype Option<+T> = None | Some(value: T)

  /** The outcome of an asynchronous fetch, once it has settled. */
  datatype Result<+T, +E> = Success(value: T) | Failure(error: E)

  /** The settled state of a promise that carries no value. */
  datatype Outcome<+E> = Pass | Fail(error: E)
}
