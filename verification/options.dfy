/** Optional values and error-carrying results shared by the whole model. */
module Options {

  /** A value that may be absent: JavaScript's `null` / `undefined`. */
  datatype Option<+T> = None | Some(value: T)

  /** The outcome of an operation that can fail with an error value of type E. */
  datatype Result<+T, +E> = Ok(value: T) | Err(error: E)
}
