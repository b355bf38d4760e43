/** Optional values: stands for a JavaScript value that may be `null` or `undefined`. */
module Wrappers {

  datatype Option<+T> = None | Some(value: T) {

    /** The value, or `default` when absent: the `x ?? default` idiom. */
    function GetOr(default: T): (r: T) {
      match this
      case Some(v) => v
      case None => default
    }
  }

  /** How an awaited promise settles. */
  datatype Settlement = Resolved | Rejected
}
