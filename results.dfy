/** Failure-carrying values that stand for the exceptions the Python code raises. */
module Results {

  datatype Option<T> = None | Some(value: T)

  /** A value, or the error that the source raises instead of returning one. */
  datatype Result<T, E> = Ok(value: T) | Err(error: E)

  /** The outcome of an operation that returns nothing when it succeeds. */
  datatype Outcome<E> = Pass | Fail(error: E)
}
