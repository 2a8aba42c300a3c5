/** The Option, Result and Outcome values shared by the model. */
module Wrappers {

  /** A value that may be missing: a lookup that finds nothing yields None. */
  datatype Option<+T> = None | Some(value: T)

  /** The outcome of a handler that produces a value or fails with an error. */
  datatype Result<+T, +E> = Ok(value: T) | Err(error: E)

  /** The outcome of a handler that produces nothing but may fail. */
  datatype Outcome<+E> = Pass | Fail(error: E)
}
