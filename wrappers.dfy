/** Optional values, used for Python's `None` and for parses that can fail. */
module Wrappers {

  /** Either nothing (`None`) or one value. */
  datatype Option<+T> = None | Some(value: T) {

    /** The held value, or `default` when there is none. */
    function GetOr(default: T): T {
      match this
      case Some(v) => v
      case None => default
    }
  }
}
