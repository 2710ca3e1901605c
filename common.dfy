/** Failure-carrying values shared by the atmosphere and reddening modules. */
module Common {

  /** A value that may be missing (Python's None). */
  datatype Option<+T> = None | Some(value: T)

  /** A computed value, or the error the source raises or signals instead. */
  datatype Result<+T, +E> = Success(value: T) | Failure(error: E)
}
