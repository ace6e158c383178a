/** Option and Result values shared by every module of the model. */
module Common {

  datatype Option<+T> = None | Some(value: T)

  /** The outcome of a source operation that either returns or throws. */
  datatype Result<+T, +E> = Ok(value: T) | Err(error: E)

}
