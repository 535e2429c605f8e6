/** Rust's `Option<T>`, used for the optional fields of an item and for `accuracy()`. */
module Wrappers {

  datatype Option<+T> = None | Some(value: T) {

    /** `Option::unwrap_or` */
    function UnwrapOr(default: T): T {
      match this
      case Some(v) => v
      case None => default
    }
  }
}
