/** The option type used for a Python `None`, and for a call that may raise. */
module Wrappers {
  datatype Option<+T> = None | Some(value: T)
}
