/** Failure-carrying wrappers shared by the whole model. */
module Common {

  datatype Option<+T> = None | Some(value: T)

  /** A value, or the exception the code would raise instead. */
  datatype Result<+T, +E> = Ok(value: T) | Err(error: E)
}
