/** The two result shapes the thumbnail model reads and returns. */
module Wrappers {

  /** A search-record field that is present or missing. */
  datatype Option<T> = None | Some(value: T) {

    /** The field's value, or `default` when it is missing, as `dict.get(key, default)` reads it. */
    function GetOr(default: T): T {
      match this
      case Some(v) => v
      case None => default
    }
  }

  /** A record that was read, or the reason reading it stopped. */
  datatype Result<R, E> = Success(value: R) | Failure(error: E)
}
