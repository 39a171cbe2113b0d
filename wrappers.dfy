/** An optional argument: a JavaScript parameter that may be left `undefined`. */
module Wrappers {

  datatype Option<+T> = None | Some(value: T) {

    /** The given value, or `default` when the argument was omitted. */
    function GetOr(default: T): (r: T)
      ensures Some? ==> r == value
      ensures None? ==> r == default
    {
      match this
      case Some(v) => v
      case None => default
    }
  }
}
