/** The optional value used across the modules for null pointers, absent keys and failed parses. */
module Wrappers {

  datatype Option<+T> = None | Some(value: T)
}
