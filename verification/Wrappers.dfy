/** A value that may be absent: the source's null pointers and "nothing found" results. */
module Wrappers {
  datatype Option<T> = None | Some(value: T)
}
