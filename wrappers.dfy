/** Option and Result, for Java's null and for the exceptions the renderer can raise. */
module Wrappers {

  /** A value that Java may hold as null (None). */
  datatype Option<+T> = None | Some(value: T)

  /** The outcome of an update: the new state, or the exception that aborted it. */
  datatype Result<+T, +E> = Success(value: T) | Failure(error: E)
}
