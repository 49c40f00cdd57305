/** Failure-carrying datatypes used across the model. */
module Wrappers {

  /** Rust's `Option`: a value that may be absent. */
  datatype Option<+T> = None | Some(value: T)

  /** Rust's `Result`: a value or the error that stopped it. */
  datatype Result<+T, +E> = Ok(value: T) | Err(error: E)
}
