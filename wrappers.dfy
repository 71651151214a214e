/** Optional values: the model's stand-in for C#'s nullable `double?` and for a
    text box whose content does not parse as a number. */
module Wrappers {

  datatype Option<+T> = None | Some(value: T) {

    /** The wrapped value, or `default` when there is none. */
    function GetOr(default: T): T {
      match this
      case Some(v) => v
      case None => default
    }
  }
}
