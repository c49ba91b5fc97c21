/** Failure-carrying values used across the model in place of Python's `None` and raised exceptions. */
module Wrappers {

  /** A value that may be absent (Python's `None`). */
  datatype Option<+T> = None | Some(value: T)

  /** The outcome of a step that can raise: its value, or the reason it failed. */
  datatype Result<+R, +E> = Ok(value: R) | Err(error: E)
}
