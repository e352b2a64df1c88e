/** The optional value the Rust code works with (`Option<T>`), with `unwrap_or`. */
module Wrappers {

  datatype Option<+T> = None | Some(value: T) {

    /** `unwrap_or(default)`: the carried value, or `default` when there is none. */
    function GetOr(default: T): (r: T)
      ensures Some? ==> r == value
      ensures None? ==> r == default
    {
      match this
      case Some(v) => v
      case None => default
    }
  }
}
