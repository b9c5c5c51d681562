/** Optional values, results and the exceptions the modelled code raises. */
module Wrappers {

  /** A Java reference or Python value that may be null / None. */
  datatype Option<T> = None | Some(value: T)

  /** The exceptions the modelled code throws, by kind. */
  datatype Exception =
    | NullPointer
    | IllegalArgument
    | IllegalState
    | IndexOutOfBounds
    | NoSuchElement
    | Arithmetic
    | Validation
    | ClassCast
    | Runtime
    | PythonIndexError
    | SystemExit(status: int)

  /** The outcome of an operation that either returns a value or throws. */
  datatype Result<T> = Ok(value: T) | Err(error: Exception)
}
