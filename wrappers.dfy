/** Option and Result values used by the whole model in place of Python's
    `None` returns and raised exceptions. */
module Wrappers {

  datatype Option<+T> = None | Some(value: T)

  /** The outcome of an operation that may raise: `Ok` carries the value,
      `Err` the exception that propagated out of it. */
  datatype Result<+T, +E> = Ok(value: T) | Err(error: E)
}
