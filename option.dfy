/** A value that may be missing: Python's `None` next to a value. */
module Opt {

  datatype Option<+T> = None | Some(value: T)
}
