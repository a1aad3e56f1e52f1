/** Option and Result values, and the Python exceptions the loader raises. */
module Wrappers {

  datatype Option<+T> = None | Some(value: T)

  datatype Result<+T, +E> = Success(value: T) | Failure(error: E)

  /** The exception classes the catalog and loaders raise, each with its message
      (a KeyError carries the missing key instead). */
  datatype Err =
    | ValueError(msg: string)
    | AttributeError(msg: string)
    | KeyError(key: string)
    | TypeError(msg: string)
}
