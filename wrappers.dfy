/** Option and Result values shared by the modules of this model. */
module Wrappers {

  /** Python's `Optional[T]`: `None` or a present value. */
  datatype Option<+T> = None | Some(value: T)

  /** The outcome of an operation that may raise: a value or the error it raises. */
  datatype Result<+T, +E> = Ok(value: T) | Err(error: E)
}
