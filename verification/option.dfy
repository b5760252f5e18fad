/** Kotlin's nullable values `T?`, as an explicit optional datatype. */
module Opt {

  datatype Option<+T> = None | Some(value: T) {

    /** `this ?: default` */
    function GetOr(default: T): T
    {
      match this
      case Some(v) => v
      case None => default
    }

    /** The first present value of `this` and `other`. */
    function Or(other: Option<T>): Option<T>
    {
      if Some? then this else other
    }
  }
}
