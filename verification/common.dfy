/** Shared value types: an optional value, the way the JavaScript source uses
    `null`/`undefined` for "absent". */
module Common {

  datatype Option<T> = None | Some(value: T) {
    function GetOr(default: T): T {
      match this
      case Some(v) => v
      case None => default
    }
  }
}
