/** An optional value, for the item pointer that may be null. */
module Wrappers {
  datatype Option<T> = None | Some(value: T)
}
