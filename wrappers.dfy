/** The optional value used wherever the source has `null` or `undefined`. */
module Wrappers {

  datatype Option<+T> = None | Some(value: T) {

    /** The value, or `default` when there is none (the source's `a || b`). */
    function GetOr(default: T): T {
      match this
      case Some(v) => v
      case None => default
    }

    /** This option if it holds a value, otherwise `other` (the source's `a?.x || b`). */
    function OrElse(other: Option<T>): Option<T> {
      match this
      case Some(_) => this
      case None => other
    }
  }
}
