/** A C pointer that may be NULL, modelled as an optional value. */
module Wrappers {

  datatype Option<+T> = None | Some(value: T) {

    /** The value, or a default when this is None (a NULL pointer). */
    function GetOr(default: T): T {
      match this
      case Some(v) => v
      case None => default
    }
  }
}
