/** Optional values and results shared by the other modules. */
module Options {

  /** A Java reference that may be null. */
  datatype Option<+T> = None | Some(value: T)

  /** The outcome of an operation that either completes or throws. */
  datatype Result<+T, +E> = Success(value: T) | Failure(error: E)
}
