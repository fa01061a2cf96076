/** The optional value used for the reader's (success, data) pair and for parsing. */
module Wrappers {

  datatype Option<+T> = None | Some(value: T)
}
