/** Optional values and thrown JavaScript errors, shared by the other modules. */
module Outcomes {

  /** `undefined` (or a missing field) versus a present value. */
  datatype Option<+T> = None | Some(value: T) {
    function GetOr(default: T): T {
      match this
      case Some(v) => v
      case None => default
    }
  }

  /** The outcome of a call that either returns a value or throws an `Error`
      carrying a message. */
  datatype Result<+T> = Ok(value: T) | Threw(message: string)
}
