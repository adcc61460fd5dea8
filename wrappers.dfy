/** Option and result datatypes shared by every module. */
module Wrappers {

  /** A value that may be missing (JavaScript `undefined`/`null` at an API boundary). */
  datatype Option<+T> = None | Some(value: T)

  /** A promise that resolves with a value or rejects with an error. */
  datatype Result<+T, +E> = Ok(value: T) | Err(error: E)

  /** A promise that resolves with nothing or rejects with an error. */
  datatype Outcome<+E> = Pass | Fail(error: E)
}
