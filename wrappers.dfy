/** The optional value used wherever the source signals "no result" through a
    `false` return, a `-1`, `npos` or a null pointer. */
module Wrappers {
  datatype Option<+T> = None | Some(value: T) {
    function GetOr(default: T): T {
      match this
      case Some(v) => v
      case None => default
    }
  }
}
