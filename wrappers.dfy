/** Failure-carrying result types shared by the modules of this project. */
module Wrappers {

  /** A value that may be absent; `None` stands for a Java `null`. */
  datatype Option<+T> = None | Some(value: T)

  /** A computed value, or the error that stopped the computation. */
  datatype Result<+T, +E> = Success(value: T) | Failure(error: E)

  /** A check that passes, or fails with an error. */
  datatype Outcome<+E> = Pass | Fail(error: E)
}
