/** Optional values (Ruby `nil`) and results of operations that may raise. */
module Wrappers {

  datatype Option<T> = None | Some(value: T)

  /** `Failure` stands for a raised error (an `ArgumentError` in most places) with its message. */
  datatype Result<T> = Ok(value: T) | Failure(error: string)
}
