/** Option and Result values, used where the script either has a value or stops. */
module Wrappers {

  datatype Option<+T> = None | Some(value: T)

  /** The outcome of a stage: a value, or the reason the script halts. */
  datatype Result<+T, +E> = Ok(value: T) | Err(error: E)
}
