/** The optional value used wherever the program has a nullable or not yet assigned field. */
module Wrappers {
  datatype Option<+T> = None | Some(value: T)
}
