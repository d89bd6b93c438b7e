/** A value that may be absent: SQL NULL, a missing row or key, an optional argument. */
module Wrappers {
  datatype Option<+T> = None | Some(value: T)
}
