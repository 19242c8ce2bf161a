/** Optional values and results with an error, as used throughout the model. */
module Options {

  /** A value that may be absent (Python's `None`). */
  datatype Option<T> = None | Some(value: T)

  /** The outcome of an operation that may raise instead of returning. */
  datatype Result<T, E> = Success(value: T) | Failure(error: E)
}
