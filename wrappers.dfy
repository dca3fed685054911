/** Option and Result values used across the model in place of None and raised exceptions. */
module Wrappers {

  datatype Option<+T> = None | Some(value: T) {
    function GetOr(default: T): T {
      match this
      case Some(v) => v
      case None => default
    }
  }

  /** The outcome of an operation that may raise: `Err` carries the exception's class name and text. */
  datatype Result<+T> = Ok(value: T) | Err(className: string, message: string)
}
