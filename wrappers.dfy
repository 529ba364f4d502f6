/** Optional values: the model's counterpart of a field that may be `undefined`. */
module Wrappers {

  datatype Option<T> = None | Some(value: T) {

    /** The held value, or `default` when there is none (JavaScript's `x ?? default`). */
    function GetOr(default: T): T
    {
      match this
      case Some(v) => v
      case None => default
    }
  }
}
