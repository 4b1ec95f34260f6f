/** The optional-value datatype used where the host runtime may hand back null. */
module Wrappers {

  datatype Option<+T> = None | Some(value: T)
}
