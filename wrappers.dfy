/** Optional values: Kotlin's nullable types and its `?:` operator. */
module Wrappers {

  datatype Option<+T> = None | Some(value: T) {

    /** `x ?: default`: the value when present, otherwise the default. */
    function GetOr(default: T): T {
      match this
      case Some(v) => v
      case None => default
    }
  }
}
