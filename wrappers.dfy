/** Presence or absence of an optional key in a parsed report element. */
module Wrappers {

  datatype Option<+T> = None | Some(value: T)
}
