/** Python's `None`-or-value, used for nullable columns, optional headers and files that may be absent. */
module Wrappers {
  datatype Option<+T> = None | Some(value: T)
}
