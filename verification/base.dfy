/** The optional-value type shared by every module of the dashboard model. */
module Base {

  /** A value that may be absent: a settled promise that was rejected, a
      missing map entry, a key that was never cached. */
  datatype Option<+T> = None | Some(value: T) {

    /** The carried value, or `default` when there is none. */
    function GetOr(default: T): T {
      match this
      case Some(v) => v
      case None => default
    }
  }
}
