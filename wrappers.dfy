/** The optional value used wherever the source has an `Option` (a missing
    environment variable, a header that may be absent, a parse that may fail). */
module Wrappers {

  datatype Option<+T> = None | Some(value: T) {

    /** The carried value, or `default` when there is none (`unwrap_or`). */
    function GetOr(default: T): T {
      match this
      case Some(v) => v
      case None => default
    }
  }
}
