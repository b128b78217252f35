/** The Some/None wrapper used wherever the program returns `None` for "nothing". */
module Optional {

  datatype Option<+T> = None | Some(value: T) {

    /**
     * The wrapped value, or `default` when there is none: the defaulting of
     * `dict.get(key, default)`, where only a missing value is replaced.
     */
    function GetOr(default: T): T {
      match this
      case Some(v) => v
      case None => default
    }
  }
}
