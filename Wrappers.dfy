/** The optional value used across the model for JavaScript `undefined`/`null`. */
module Wrappers {
  datatype Option<+T> = None | Some(value: T) {
    /** The contained value, or `default` when there is none. */
    function GetOr(default: T): T {
      match this
      case Some(v) => v
      case None => default
    }
  }
}
