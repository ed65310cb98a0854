/** Failure-compatible wrappers shared by every module of the model.

    `Option` stands for a value the source may leave `null`/`undefined`
    (a missing row, an absent field, an optional argument). */
module Wrappers {

  /** A value that may be absent: `None` models `null`, `undefined` or "no row". */
  datatype Option<+T> = None | Some(value: T) {

    /** The wrapped value, or `default` when absent (JavaScript's `x ?? d`). */
    function GetOr(default: T): (r: T)
      ensures Some? ==> r == value
      ensures None? ==> r == default
    {
      match this
      case Some(v) => v
      case None => default
    }
  }
}
