/** Failure-carrying values shared by every module of the model. */
module Wrappers {

  /** A value that may be missing: pandas' NaN / None, or a dictionary miss. */
  datatype Option<+T> = None | Some(value: T) {
    function GetOr(default: T): T {
      match this
      case Some(v) => v
      case None => default
    }
  }

  /** The outcome of a script step that either yields a value or raises. */
  datatype Outcome<+T> = Done(value: T) | Raised(reason: string)
}
