/** The optional value used wherever the source may or may not have an answer. */
module Wrappers {
  datatype Option<+T> = None | Some(value: T)
}
