/** The optional value used for toast counts and the authenticated user. */
module Wrappers {

  datatype Option<+T> = None | Some(value: T)
}
