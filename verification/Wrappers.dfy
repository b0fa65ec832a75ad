/** The optional value used where the source returns a nil pointer or an "ok" flag. */
module Wrappers {
  datatype Option<+T> = None | Some(value: T)
}
