/** Python's `None`-or-value fields, as an explicit optional type. */
module Options {

  /** A value that may be absent: `None` is Python's `None`, `Some(v)` a present value. */
  datatype Option<+T> = None | Some(value: T) {

    /** The value, or `default` when absent: Python's `x or default` for a non-zero `x`. */
    function GetOr(default: T): T {
      match this
      case Some(v) => v
      case None => default
    }
  }
}
