/** An optional value: the model's stand-in for a JavaScript property that
    may be absent (`undefined`) or for a call that may yield nothing. */
module Wrappers {

  datatype Option<+T> = None | Some(value: T) {

    /** `x || fallback` for a value that is either absent or present. */
    function GetOr(fallback: T): T {
      match this
      case Some(v) => v
      case None => fallback
    }
  }
}
