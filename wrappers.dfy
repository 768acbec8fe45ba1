/** A value that may be absent: an undefined PHP constant, an unset request field. */
module Wrappers {
  datatype Option<T> = None | Some(value: T)
}
