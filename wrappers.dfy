/** Optional values, standing for Python's `None` and for "a local that is not bound yet",
  * and the outcome of a call that may raise. */
module Wrappers {

  datatype Option<+T> = None | Some(value: T) {

    /** The wrapped value, or `default` when there is none. */
    function GetOr(default: T): T {
      match this
      case Some(v) => v
      case None => default
    }
  }

  /** What a call that may raise gives back: a string, or the text of the exception. */
  datatype Outcome = Returned(value: string) | Raised(message: string)
}
