/** The optional value used wherever the source returns null for "none". */
module Wrappers {
  datatype Option<+T> = None | Some(value: T)
}
