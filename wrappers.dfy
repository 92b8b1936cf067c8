/** Failure-compatible values: an absent value (Python's None) and a
    success-or-error outcome (a return value or a raised error). */
module Wrappers {

  datatype Option<+T> = None | Some(value: T)

  datatype Result<+T, +E> = Ok(value: T) | Err(error: E)
}
