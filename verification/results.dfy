/** Failure-carrying wrappers shared by the whole model. */
module Results {

  /** A value that may be absent: an omitted command-line option, a failed search. */
  datatype Option<+T> = None | Some(value: T)

  /** The outcome of an operation that either succeeds with a value or fails with an error. */
  datatype Result<+T, +E> = Ok(value: T) | Err(error: E)
}
