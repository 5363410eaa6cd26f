/** Option and Result datatypes used across the model: Option for a bound that a
    call leaves out, Result for a construction that fails with an error. */
module Wrappers {

  datatype Option<+T> = None | Some(value: T)

  datatype Result<+R, +E> = Ok(value: R) | Err(error: E)
}
