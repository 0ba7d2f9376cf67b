/** Option and Result: the model's stand-ins for `null` / `undefined` and for
    a promise that either resolves with a value or rejects with an Error message. */
module Wrappers {

  datatype Option<+T> = None | Some(value: T) {
    function GetOr(default: T): T {
      match this
      case Some(v) => v
      case None => default
    }
  }

  /** A settled promise: `Ok` is a resolve, `Err` a reject carrying the Error's message. */
  datatype Result<+T> = Ok(value: T) | Err(message: string)
}
