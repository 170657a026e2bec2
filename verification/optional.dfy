/** The absent-or-present value used for session keys that may not be set yet. */
module Optional {

  datatype Option<T> = None | Some(value: T) {

    /** The value when present, `default` otherwise (Python's `dict.get(key, default)`). */
    function GetOr(default: T): T {
      match this
      case Some(v) => v
      case None => default
    }
  }
}
