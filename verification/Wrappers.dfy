/** The optional values and call outcomes that the other modules share. */
module Wrappers {

  datatype Option<+T> = None | Some(value: T)

  /** What a call gives back to its caller: a value, or a thrown error. */
  datatype Result<+T, +E> = Success(value: T) | Failure(error: E)
}
