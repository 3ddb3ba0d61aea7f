/** Failure-carrying datatypes shared by the whole model. */
module Wrappers {

  /** An optional value, as Rust's `Option`. */
  datatype Option<+T> = None | Some(value: T)

  /** A value or an error, as Rust's `Result`. */
  datatype Result<+T, +E> = Success(value: T) | Failure(error: E)

  /** A unit `Result`: `Ok(())` or an error. */
  datatype Outcome<+E> = Pass | Fail(error: E)

  /** An I/O error (`io::Error`); only its identity matters to the model. */
  datatype IoError = IoError(code: int)
}
