/** Option and Result values, standing for Python's `None`-or-value returns
    and for a call into a service that either answers or raises. */
module Wrappers {

  datatype Option<+T> = None | Some(value: T)

  datatype Result<+R, +E> = Success(value: R) | Failure(error: E)
}
