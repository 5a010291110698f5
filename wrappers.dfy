/** Small failure-carrying datatypes shared by the frontend and backend models. */
module Wrappers {

  /** A value that may be absent: JavaScript's `null` image reference. */
  datatype Option<T> = None | Some(value: T)

  /** The outcome of a request handler: a value, or the error sent back instead. */
  datatype Result<T, E> = Success(value: T) | Failure(error: E)
}
