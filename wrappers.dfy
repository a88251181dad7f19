/** The optional value of a TypeScript field written `field?: T`: absent or present. */
module Wrappers {

  datatype Option<+T> = None | Some(value: T) {

    /** The value when present, otherwise `default` (the `??` operator). */
    function GetOr(default: T): T {
      match this
      case Some(v) => v
      case None => default
    }
  }
}
