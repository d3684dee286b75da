/** Option and Result values standing for Python's `None` and for raised exceptions. */
module Wrappers {

  /** `None` or a present value, as Python's `Optional[T]`. */
  datatype Option<+T> = None | Some(value: T)

  /** A normal return carrying a value, or a raised exception. */
  datatype Result<+T, +E> = Ok(value: T) | Err(error: E)
}
