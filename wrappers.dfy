/** Java's nullable references and thrown exceptions, as values. */
module Wrappers {

  /** A Java reference that may be null: `None` is null. */
  datatype Option<+T> = None | Some(value: T)

  /** The normal return of a Java method, or the exception it throws. */
  datatype Result<+T, +E> = Success(value: T) | Failure(error: E)
}
