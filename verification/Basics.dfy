/** The optional value used throughout; `None` models a nil pointer. */
module Basics {
  datatype Option<+T> = None | Some(value: T)
}
