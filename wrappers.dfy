/** The optional value used for the two role slots of a connection pair. */
module Wrappers {
  datatype Option<+T> = None | Some(value: T)
}
