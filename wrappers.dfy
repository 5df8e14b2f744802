/** The optional-value datatype used for library calls that can fail. */
module Wrappers {
  datatype Option<+T> = None | Some(value: T)
}
