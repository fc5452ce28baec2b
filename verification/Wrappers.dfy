/** The Some/None datatype used where the Python code has `Optional` or raises. */
module Wrappers {
  datatype Option<+T> = None | Some(value: T)
}
