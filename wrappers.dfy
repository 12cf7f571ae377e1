/** Option and Result: the absent value and the thrown error of the modelled code. */
module Wrappers {

  datatype Option<+T> = None | Some(value: T)

  /** `Err` stands for an exception or a `{success: false, error}` record. */
  datatype Result<+T, +E> = Ok(value: T) | Err(error: E)
}
