/** The optional value used across the project in place of the source's `Option`. */
module Wrappers {
  datatype Option<+T> = None | Some(value: T)
}
