/** Results shared by the models. */
module Wrappers {

  datatype Option<+T> = None | Some(value: T)

  /** A value, or the error the program raises instead. */
  datatype Result<+T, +E> = Success(value: T) | Failure(error: E)
}
