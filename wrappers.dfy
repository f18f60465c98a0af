/** Optional values: a cell that may be missing (pandas NaN / NaT). */
module Wrappers {

  datatype Option<+T> = None | Some(value: T) {

    /** The value, or `default` when missing (pandas `fillna(default)` on one cell). */
    function GetOr(default: T): (r: T)
      ensures Some? ==> r == value
      ensures None? ==> r == default
    {
      match this
      case Some(v) => v
      case None => default
    }
  }
}
