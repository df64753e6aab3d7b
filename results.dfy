/** Failure-carrying values used where the original code throws. */
module Results {

  datatype Option<+T> = None | Some(value: T)

  /** The value of an operation that either succeeds or throws. */
  datatype Result<+T, +E> = Ok(value: T) | Err(error: E)

  /** The outcome of a state-changing operation that returns nothing or throws. */
  datatype Outcome<+E> = Pass | Fail(error: E)
}
