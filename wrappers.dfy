/** Option and Result: the `null`-or-record answers of the store and the
    thrown exceptions of the services, as values. */
module Wrappers {

  datatype Option<+T> = None | Some(value: T)

  datatype Result<+R, +E> = Success(value: R) | Failure(error: E)
}
