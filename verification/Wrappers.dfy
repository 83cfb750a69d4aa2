// An optional value, standing for Python's `None`-able fields and results.
module Wrappers {
  datatype Option<+T> = None | Some(value: T)
}
