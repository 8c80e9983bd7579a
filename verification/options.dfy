/** An optional value: a key that may be absent from the extension's
    key-value storage, a form attribute that may be unset, or a parse that
    may fail. */
module Options {

  datatype Option<+T> = None | Some(value: T) {

    /** The carried value, or `default` when there is none (JavaScript's
        `x || default` for values that are never falsy). */
    function GetOr(default: T): (r: T)
      ensures Some? ==> r == value
      ensures None? ==> r == default
    {
      match this
      case Some(v) => v
      case None => default
    }
  }
}
