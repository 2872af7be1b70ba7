/** Option and Result, used wherever the source returns `null` or throws. */
module Wrappers {

  datatype Option<+T> = None | Some(value: T)

  /** `Failure` carries the message of the Error the source would throw. */
  datatype Result<+T> = Success(value: T) | Failure(message: string)
}
