/** A value or the absence of one: null pointers, empty results, exceptions not thrown. */
module Wrappers {
  datatype Option<+T> = None | Some(value: T)
}
