/** An optional value: a key that a parameter-group dict may or may not carry. */
module Options {

  datatype Option<T> = None | Some(value: T) {

    /** The carried value, or `default` when there is none (dict.setdefault). */
    function GetOr(default: T): T {
      match this
      case Some(v) => v
      case None => default
    }
  }
}
