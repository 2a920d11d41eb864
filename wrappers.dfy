/** Failure-carrying values shared by every module. The controllers are Python
    scripts, so a failure is one of the Python exceptions the code can raise. */
module Wrappers {

  datatype Option<+T> = None | Some(value: T) {
    /** The Python `x if x is not None else default` idiom. */
    function GetOr(default: T): T
    {
      match this
      case Some(v) => v
      case None => default
    }
  }

  /** The exceptions the modelled code raises (or `sys.exit` for a usage error). */
  datatype PyError =
    | KeyError
    | ValueError
    | TypeError
    | IndexError
    | ZeroDivisionError
    | SystemExit(usage: string)

  datatype Result<+T> = Success(value: T) | Failure(error: PyError)
}
