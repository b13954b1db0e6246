/** Failure-carrying results shared by the other modules. */
module Options {

  datatype Option<+T> = None | Some(value: T)

  /** A value, or the exception the program throws. */
  datatype Result<+T, +E> = Ok(value: T) | Err(error: E)
}
