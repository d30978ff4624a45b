/** Option and Result, used for the values that may be missing (a `None`
    content field) and for the operations that raise. */
module Wrappers {

  datatype Option<+T> = None | Some(value: T)

  /** The outcome of an operation that either returns a value or raises an
      exception, whose message is kept as text. */
  datatype Result<+T> = Success(value: T) | Failure(error: string)
}
