/** Option and Result, used for the error paths of the modelled code
    (a Python `None` return or a raised exception). */
module Wrappers {

  datatype Option<+T> = None | Some(value: T)

  datatype Result<+R, +E> = Success(value: R) | Failure(error: E)
}
