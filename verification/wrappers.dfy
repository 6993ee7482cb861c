/** Optional values: PHP's nullable scalars and "key absent" array slots. */
module Wrappers {

  datatype Option<+T> = None | Some(value: T) {

    /** PHP's `??`: the value when present, otherwise the fallback. */
    function GetOr(default: T): T {
      match this
      case Some(v) => v
      case None => default
    }
  }
}

/** Wall-clock instants. `now()` is handed in by callers; values are opaque. */
module Clock {
  type Timestamp = int
}
