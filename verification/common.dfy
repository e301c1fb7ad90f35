/** Shared building blocks: the optional value used wherever the source has
    `undefined`, `null` or an optional record field. */
module Common {

  /** `None` stands for the source's `null`/`undefined`. */
  datatype Option<+T> = None | Some(value: T) {

    /** The carried value, or `default` when there is none. */
    function GetOr(default: T): T {
      match this
      case Some(v) => v
      case None => default
    }
  }
}
