/** Option and Result, used for the absent values and the error paths of the modelled code. */
module Wrappers {

  datatype Option<+T> = None | Some(value: T) {
    /** The carried value, or `default` when there is none. */
    function GetOr(default: T): T {
      match this
      case Some(v) => v
      case None => default
    }
  }

  datatype Result<+R, +E> = Ok(value: R) | Err(error: E)
}
