/** Option and Result values used in place of JavaScript's null/undefined and
    of the controllers' early `return res.status(...)` error paths. */
module Wrappers {

  datatype Option<+T> = None | Some(value: T)

  datatype Result<+T, +E> = Ok(value: T) | Err(error: E)
}
