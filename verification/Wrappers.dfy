/** The option type used for Python's `None` and for a call that raises. */
module Wrappers {

  datatype Option<+T> = None | Some(value: T)
}
