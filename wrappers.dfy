/** Optional values: the model of the source's nullable references and nullable enums. */
module Wrappers {

  /** `None` stands for C#'s `null`, `Some(v)` for a present value. */
  datatype Option<T> = None | Some(value: T) {

    /** The null-coalescing operator `this ?? default`. */
    function GetOr(default: T): (r: T)
      ensures Some? ==> r == value
      ensures None? ==> r == default
    {
      match this
      case Some(v) => v
      case None => default
    }
  }
}
