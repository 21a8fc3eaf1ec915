/** Failure-compatible wrappers shared by the other modules. */
module Outcomes {

  /** A value that may be absent (JavaScript's `undefined` for a missing entry). */
  datatype Option<+T> = None | Some(value: T)

  /** The outcome of an operation that resolves with a value or rejects with an error. */
  datatype Result<+T, +E> = Ok(value: T) | Err(error: E)
}
