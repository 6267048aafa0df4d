/** The success-or-nothing result the parser returns in place of Python's `None`. */
module Wrappers {
  datatype Option<+T> = None | Some(value: T)
}
