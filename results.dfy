/** Success/failure wrappers shared by the client and path-template modules. */
module Results {

  /** A value that may be absent (JavaScript `undefined`). */
  datatype Option<+T> = None | Some(value: T)

  /** The result of an operation that may throw. */
  datatype Result<+T, +E> = Ok(value: T) | Err(error: E)

  /** The result of an operation that returns nothing of interest but may throw. */
  datatype Outcome<+E> = Pass | Fail(error: E)
}
