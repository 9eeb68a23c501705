/** Optional values: Python's `None` next to a present value. */
module Wrappers {

  datatype Option<+T> = None | Some(value: T) {

    /** The value if present, otherwise `default` (Python's `x or default`). */
    function GetOr(default: T): T {
      match this
      case Some(v) => v
      case None => default
    }

    /** This option if present, otherwise `other` (Python's `a or b` on optional values). */
    function OrElse(other: Option<T>): Option<T> {
      if Some? then this else other
    }
  }
}
