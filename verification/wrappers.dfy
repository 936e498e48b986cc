/** The absent-or-present value that stands for Guava's Optional in the plugin manager's lookups. */
module Wrappers {

  datatype Option<+T> = None | Some(value: T)
}
