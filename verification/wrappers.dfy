/** Option and Result, the two failure-carrying shapes the model uses in place of
    Python's None and raised ValueError / AuthenticationFailed. */
module Wrappers {

  datatype Option<+T> = None | Some(value: T)

  datatype Result<+T, +E> = Ok(value: T) | Err(error: E)
}
