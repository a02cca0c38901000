/** The optional-value wrapper used for TypeScript's `field?: T` and `T | null`. */
module Options {

  datatype Option<+T> = None | Some(value: T) {

    /**
     * The wrapped value, or `default` when absent. Used for a thrown value's
     * message: an `Error`'s own message, otherwise the fixed fallback text.
     */
    function GetOr(default: T): (r: T)
      ensures Some? ==> r == value
      ensures None? ==> r == default
    {
      match this
      case Some(v) => v
      case None => default
    }
  }
}
