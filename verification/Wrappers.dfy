/** Values that may be missing: an SQL NULL, an absent field of a request, a JavaScript undefined. */
module Wrappers {
  datatype Option<+T> = None | Some(value: T)

  /** `a ?? b` where b may be missing as well. */
  function Coalesce<T>(a: Option<T>, b: Option<T>): Option<T> {
    if a.Some? then a else b
  }
}
