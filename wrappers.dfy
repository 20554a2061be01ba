/** Small failure-carrying datatypes shared by the other modules. */
module Wrappers {

  /** An optional value: the result of a lookup that may miss. */
  datatype Option<+T> = None | Some(value: T)

  /** A value or an error: the result of an operation that may throw. */
  datatype Result<+T, +E> = Ok(value: T) | Err(error: E)
}
