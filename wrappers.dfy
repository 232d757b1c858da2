/** A value that may be missing: a null cell, an absent column, a failed parse. */
module Wrappers {

  datatype Option<+T> = None | Some(value: T)
}
