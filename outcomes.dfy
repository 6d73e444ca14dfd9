/** Optional values and the Python exceptions the updater can raise, as values. */
module Outcomes {

  datatype Option<+T> = None | Some(value: T)

  /** The exceptions that escape the modelled functions. */
  datatype Error =
    | RuntimeError(message: string)
    | NotImplementedError(message: string)
    | IndexError
    | JsonDecodeError
    | TypeError
    | OSError(kind: string)

  /** A value, or the exception raised instead of returning one. */
  datatype Result<+T> = Ok(value: T) | Err(error: Error)
}
