/** Optional values and calls that may raise. */
module Wrappers {
  datatype Option<+T> = None | Some(value: T)
  {
    function GetOr(default: T): T { if Some? then value else default }
  }

  /** A Python call: it returns a value or raises. */
  datatype Outcome<+T> = Raised | Returned(value: T)
}
