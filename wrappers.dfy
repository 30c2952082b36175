/** Option and Result, and the Python exceptions the contact book raises. */
module Wrappers {

  datatype Option<+T> = None | Some(value: T)

  /** The exception classes raised by the modelled code. */
  datatype Exception = ValueError | KeyError | IndexError | OverflowError

  /** Either the value a Python function returns or the exception it raises. */
  datatype Result<+T> = Success(value: T) | Failure(error: Exception)

  /** A Python procedure that returns None or raises. */
  datatype Outcome = Pass | Fail(error: Exception)
}
