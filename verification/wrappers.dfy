/** Failure-carrying wrappers shared by the other modules. */
module Wrappers {

  /** An optional value, the model of a possibly-null pointer or reference. */
  datatype Option<+T> = None | Some(value: T) {
    function GetOr(default: T): T {
      match this
      case Some(v) => v
      case None => default
    }
  }
}
