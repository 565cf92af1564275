/** The optional value used for "the pattern matched / did not match" and map lookups. */
module Wrappers {

  datatype Option<+T> = None | Some(value: T)
}
