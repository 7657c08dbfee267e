/** Option and Result, the failure-compatible wrappers the rest of the model uses.
    `None` stands for Java's `null`; `Failure` for a thrown exception. */
module Wrappers {

  datatype Option<+T> = None | Some(value: T)

  datatype Result<+R, +E> = Success(value: R) | Failure(error: E)

  /** The result of a check that either passes or reports one error. */
  datatype Outcome<+E> = Pass | Fail(error: E)
}
