/** The one type every other module shares. */
module Prelude {
  /** A value that may be missing: the source's `null` and `undefined`. */
  datatype Option<+T> = None | Some(value: T)
  {
    function GetOr(default: T): T { if Some? then value else default }
  }
}
