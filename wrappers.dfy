/** The optional value and the value-or-error shared by every module of the model. */
module Wrappers {

  /** A value that may be absent; `None` also stands for JavaScript's `undefined`. */
  datatype Option<+T> = None | Some(value: T)

  /** The value of an operation that may throw. */
  datatype Result<+T, +E> = Ok(value: T) | Err(error: E)
}
