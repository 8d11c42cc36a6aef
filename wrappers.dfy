/** Failure-carrying values shared by the other modules. */
module Wrappers {

  /** A value that may be absent: the model of a TypeScript `T | undefined`. */
  datatype Option<+T> = None | Some(value: T)

  /** The outcome of an awaited host call: its value, or the reason it was rejected with. */
  datatype Result<+T, +E> = Success(value: T) | Failure(error: E)
}
