/** An optional value, used for a parse that can fail and for a cadence that may be undefined. */
module Wrappers {
  datatype Option<+T> = None | Some(value: T)
}
