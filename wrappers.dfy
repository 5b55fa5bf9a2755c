/** Option and Result: the null/undefined values and the raised errors of the
    modelled programs. */
module Wrappers {

  /** A value that may be absent (Python None, JavaScript null/undefined). */
  datatype Option<+T> = None | Some(value: T) {

    /** The value, or `default` when absent. */
    function GetOr(default: T): T {
      match this
      case Some(v) => v
      case None => default
    }

    /** JavaScript's `this ?? other` on optional values. */
    function OrElse(other: Option<T>): Option<T> {
      if Some? then this else other
    }
  }

  /** A successful value, or the error a call raised. */
  datatype Result<+T, +E> = Ok(value: T) | Err(error: E)
}
