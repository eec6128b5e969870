/** Optional values and results with an error, as used by the todo model. */
module Wrappers {

  /** A value that may be absent: a JSON field left out or set to null. */
  datatype Option<+T> = None | Some(value: T)

  /** The outcome of an operation that can fail with an error of type E. */
  datatype Result<+T, +E> = Ok(value: T) | Err(error: E)
}
