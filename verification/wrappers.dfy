/** The Some/None datatype used for "not found" results, in place of Python's None. */
module Wrappers {

  datatype Option<+T> = None | Some(value: T)
}
