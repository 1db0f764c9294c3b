/** Failure-compatible wrappers shared by every module of the model. */
module Wrappers {

  /** A value that may be missing: `null`/`undefined` in TypeScript, `None` in Python. */
  datatype Option<+T> = None | Some(value: T)

  /** The outcome of an operation that can fail (a thrown exception or a rejected promise). */
  datatype Result<+T, +E> = Ok(value: T) | Err(error: E)
}
