/** Failure-carrying return values: the model's counterparts of Rust's `Option` and `Result`. */
module Wrappers {

  datatype Option<+T> = None | Some(value: T)

  /** `Result<R, E>`: `Ok(r)` is `Success(r)`, `Err(e)` is `Failure(e)`. */
  datatype Result<+R, +E> = Success(value: R) | Failure(error: E)

  /** `Result<(), E>`: `Ok(())` is `Pass`, `Err(e)` is `Fail(e)`. */
  datatype Outcome<+E> = Pass | Fail(error: E)
}
