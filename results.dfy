/** Failure-carrying return values, standing in for the exceptions the
    notebook code raises and for Python's `None`. */
module Results {

  datatype Option<+T> = None | Some(value: T)

  datatype Result<+T, +E> = Ok(value: T) | Err(error: E)

  /** A call that returns nothing on success but may raise. */
  datatype Outcome<+E> = Pass | Fail(error: E)
}
