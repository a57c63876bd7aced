/** A JavaScript value that may be missing: `None` stands for `undefined` (and `null`). */
module Wrappers {
  datatype Option<+T> = None | Some(value: T)
}
