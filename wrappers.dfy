/** Failure-carrying values shared by the handlers: an optional value and a
    value-or-error, the latter standing for a thrown exception or an error
    passed to a Lambda callback. */
module Wrappers {

  datatype Option<+T> = None | Some(value: T)

  datatype Result<+T, +E> = Success(value: T) | Failure(error: E)
}
