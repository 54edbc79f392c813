/** Optional values, the exceptions the modelled code can raise, and results that either carry
    a value or say which exception escaped. */
module Outcomes {

  datatype Option<+T> = None | Some(value: T)

  /** The Python exceptions that can escape from the modelled operations. */
  datatype Exception =
    | FileNotFoundError
    | UnicodeDecodeError
    | TypeError
    | KeyError
    | IndexError
    | NameError
    | ValueError
    | RuntimeError

  /** Either the value an operation returned, or the exception it raised. */
  datatype Result<+T> = Ok(value: T) | Raise(error: Exception)
}
