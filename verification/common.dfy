/** Failure-compatible wrappers shared by the controller model. */
module Common {

  /** A value that may be absent, standing in for Python's `None`. */
  datatype Option<T> = None | Some(value: T)

  /** Either a constructed value or the reason construction failed. */
  datatype Result<T, E> = Ok(value: T) | Err(error: E)
}
