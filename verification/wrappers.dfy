/** The Option type used throughout the model for JavaScript's `undefined` / `null`. */
module Wrappers {

  /** `None` stands for a missing value (`undefined` or `null` in the dashboard code). */
  datatype Option<+T> = None | Some(value: T) {

    /** The value, or `default` when it is missing (JavaScript's `x ?? default`). */
    function GetOr(default: T): T {
      match this
      case Some(v) => v
      case None => default
    }
  }
}
