/** Option and Result, the two shapes the binding uses for "absent" and "failed". */
module Wrappers {

  datatype Option<+T> = None | Some(value: T)

  datatype Result<+R, +E> = Success(value: R) | Failure(error: E)
}
