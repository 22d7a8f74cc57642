/** Failure-carrying values used where the Python code raises or returns "nothing". */
module Results {

  /** A value that may be absent (a dictionary miss, a dead sprite, a list index out of range). */
  datatype Option<+T> = None | Some(value: T)

  /** The outcome of an operation that the Python code can abort with an exception. */
  datatype Result<+T, +E> = Ok(value: T) | Err(error: E)
}
