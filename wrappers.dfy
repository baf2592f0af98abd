/** Option and Result: the failure-carrying return types the rest of the model uses
    in place of the source's assertion failures, panics and exceptions. */
module Wrappers {

  datatype Option<+T> = None | Some(value: T)

  datatype Result<+R, +E> = Ok(value: R) | Err(error: E)
}
