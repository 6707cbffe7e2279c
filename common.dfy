/** Small shared vocabulary: an optional value, as JavaScript's `undefined`/`null` versus a value. */
module Common {

  datatype Option<+T> = None | Some(value: T) {
    /** The value, or `default` when absent: JavaScript's `x ?? default`. */
    function GetOr(default: T): T {
      match this
      case Some(v) => v
      case None => default
    }
  }
}
