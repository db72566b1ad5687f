/** An optional value: a Python attribute that may not have been assigned yet, or a search that may find nothing. */
module Wrappers {
  datatype Option<+T> = None | Some(value: T)
}
