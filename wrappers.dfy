/** Option and Result, used for values that may be absent and for
    validation that either yields a typed value or reports errors. */
module Wrappers {

  datatype Option<+T> = None | Some(value: T)

  datatype Result<+R, +E> = Ok(value: R) | Err(error: E)
}
