/** Option and Result, as used by every module of the model. */
module Results {

  datatype Option<+T> = None | Some(value: T)

  /** The outcome of a call that can be refused: a value, or the reason. */
  datatype Result<+T, +E> = Ok(value: T) | Err(error: E)
}
