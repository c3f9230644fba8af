/** The Option datatype used for "a value, or nothing was produced". */
module Wrappers {
  datatype Option<+T> = None | Some(value: T)
}
