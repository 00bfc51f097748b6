/** The two failure-compatible result types used throughout the model. */
module Wrappers {

  datatype Option<+T> = None | Some(value: T)

  /** A value, or the error that the modelled code raises instead. */
  datatype Result<+T, +E> = Ok(value: T) | Err(error: E)
}
