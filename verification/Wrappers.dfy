/** A result that may be missing: the null pointers and negative indices of the source. */
module Wrappers {
  datatype Option<+T> = None | Some(value: T)
}
