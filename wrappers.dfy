/** The optional value used for the goal's wildcard fields and for the
    start state's missing predecessor. */
module Wrappers {
  datatype Option<+T> = None | Some(value: T)
}
