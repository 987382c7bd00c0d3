/** The optional-value datatype used throughout the model for "no result"
    (the source's `None`) and for lookups that may miss. */
module Wrappers {

  datatype Option<+T> = None | Some(value: T) {

    /** Returns the wrapped value, or `default` when there is none. */
    function GetOr(default: T): T {
      match this
      case Some(v) => v
      case None => default
    }
  }
}
