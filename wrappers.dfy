/** Stand-ins for Java's null and for a thrown exception. */
module Wrappers {

  /** A value that may be absent (Java `null`). */
  datatype Option<+T> = None | Some(value: T)

  /** The outcome of a call that either returns a value or throws `error`. */
  datatype Result<+R, +E> = Success(value: R) | Failure(error: E)
}
