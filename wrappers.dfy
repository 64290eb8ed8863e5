/** The optional value used where the source can fail with an exception. */
module Wrappers {

  datatype Option<+T> = None | Some(value: T)
}
