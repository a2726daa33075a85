/** Option, Result and Outcome: the model's stand-ins for JavaScript's `null`
    results, thrown errors and "threw or returned normally". */
module Wrappers {

  datatype Option<+T> = None | Some(value: T)

  /** A computation that either returns a value or throws an error message. */
  datatype Result<+T, +E> = Ok(value: T) | Err(error: E)

  /** A computation that returns nothing or throws an error message. */
  datatype Outcome<+E> = Pass | Fail(error: E)
}
