/** Optional values: the model's stand-in for a JavaScript key that may be absent or a value that may be null. */
module Wrappers {

  datatype Option<+T> = None | Some(value: T) {

    /** The value, or `default` when there is none: the `x ?? default` / `{...defaults, ...payload}` idiom. */
    function GetOr(default: T): T {
      match this
      case Some(v) => v
      case None => default
    }
  }
}
