/** Optional values: an absent query parameter, a folder that does not exist,
    a response field the missing-folder branch leaves out. */
module Wrappers {

  datatype Option<+T> = None | Some(value: T) {

    /** The value if present, otherwise the given default (the `x || d` and
        default-parameter idioms of the source). */
    function GetOr(default: T): T {
      match this
      case Some(v) => v
      case None => default
    }
  }
}
