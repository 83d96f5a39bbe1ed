/** A minimal optional-value type standing in for the nullable and
    defaultable values of the stores (`string | null`, a parameter that
    may be left `undefined`). */
module Wrappers {

  datatype Option<+T> = None | Some(value: T) {

    /** The wrapped value, or `default` when there is none. */
    function GetOr(default: T): T {
      match this
      case Some(v) => v
      case None => default
    }
  }
}
