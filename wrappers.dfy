/** Option and Result, shared by the controller model and the engine model. */
module Wrappers {

  /** A value that may be missing: JavaScript's `undefined`/`null`, Java's `null`. */
  datatype Option<+T> = None | Some(value: T)

  /** The outcome of an operation that may throw: `Err` carries the exception. */
  datatype Result<+T, +E> = Ok(value: T) | Err(error: E)
}
