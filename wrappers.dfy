/** Option and Result types shared by the other modules. */
module Wrappers {

  datatype Option<+T> = None | Some(value: T)

  /** The outcome of PHP code that can end in a fatal error. */
  datatype Result<+T> = Success(value: T) | Failure(error: string)
}
