/** A value that may be missing: Python's `None` or a failed attempt. */
module Wrappers {

  datatype Option<+T> = None | Some(value: T)
}
