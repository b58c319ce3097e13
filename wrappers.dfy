/** Failure-compatible result types shared by the model. */
module Wrappers {

  /** A value that may be absent: Python's None, C's NULL pointer. */
  datatype Option<+T> = None | Some(value: T)

  /** The outcome of an operation that either succeeds or raises with a message. */
  datatype Outcome<+E> = Pass | Fail(error: E)
}
