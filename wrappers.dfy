/** A small Option type: `None` stands for Go's `nil` (no error, or no map). */
module Wrappers {
  datatype Option<+T> = None | Some(value: T)
}
