/** Small value wrappers shared by the other modules. */
module Wrappers {

  /** An optional value: Python's `None` versus a value. */
  datatype Option<+T> = None | Some(value: T) {

    /** The value, or `default` when there is none (Python's `x or default` on optional strings). */
    function GetOr(default: T): T {
      match this
      case Some(v) => v
      case None => default
    }
  }
}
