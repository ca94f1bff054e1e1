/** A value that may be missing: null, undefined or absent in the modelled programs. */
module Wrappers {
  datatype Option<T> = None | Some(value: T)
}
