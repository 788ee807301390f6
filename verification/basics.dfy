/** Failure-carrying datatypes used by every module of the model. */
module Basics {

  /** A value that may be missing: JavaScript's `null` for a field such as `lastMove`. */
  datatype Option<+T> = None | Some(value: T)

  /** Either the new value an operation produces or the reason it refused. */
  datatype Result<+T, +E> = Ok(value: T) | Err(error: E)
}
