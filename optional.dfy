/** An optional value, standing in for Python's `None`-or-value fields. */
module Optional {
  datatype Option<T> = None | Some(value: T) {
    /** The value, or `default` when there is none (Python's `x if x is not None else default`). */
    function GetOr(default: T): T {
      if Some? then value else default
    }
  }
}
