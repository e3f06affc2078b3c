/** The optional value used across the model for "found / not found" and "parsed / malformed". */
module Wrappers {
  datatype Option<T> = None | Some(value: T)
}
