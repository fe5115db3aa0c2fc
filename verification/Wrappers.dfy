/** Option and Result, used for Python's `None` and for raised exceptions. */
module Wrappers {

  /** An optional value: `None` stands for Python's `None`. */
  datatype Option<+T> = None | Some(value: T)

  /** The outcome of an operation that may raise: `Err` carries what was raised. */
  datatype Result<+T, +E> = Ok(value: T) | Err(error: E)
}
