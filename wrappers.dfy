/** The optional value used for an empty or filled board slot. */
module Wrappers {
  datatype Option<+T> = None | Some(value: T)
}
