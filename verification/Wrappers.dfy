/** A value that may be missing. */
module Wrappers {
  datatype Option<T> = None | Some(value: T)

  function Or<T>(x: Option<T>, default: T): T {
    if x.Some? then x.value else default
  }
}
