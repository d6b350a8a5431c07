/** What may be missing: a value, or none. */
module Wrappers {
  datatype Option<+T> = None | Some(value: T)
}
