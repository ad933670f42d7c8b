/** Option and Result, plus the exceptions the modelled code raises or catches. */
module Wrappers {

  datatype Option<+T> = None | Some(value: T) {
    function GetOr(default: T): T {
      match this
      case Some(v) => v
      case None => default
    }
  }

  datatype Result<+R, +E> = Success(value: R) | Failure(error: E)

  /** An exception as the Python code sees it: a `RuntimeError` with its message
      (the code inspects those messages), or any other exception class. */
  datatype Exc = RuntimeError(message: string) | OtherError(className: string)
}
