/** The absent-or-present value used wherever the JavaScript code returns
    `undefined` / `null` for "nothing found". */
module Wrappers {

  datatype Option<+T> = None | Some(value: T) {

    /** The value when present, otherwise `default` (JavaScript's `x || default`
        once `x` is known to be a non-empty string). */
    function GetOr(default: T): T {
      match this
      case Some(v) => v
      case None => default
    }
  }
}
