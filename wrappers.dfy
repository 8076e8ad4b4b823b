/** The optional value the source expresses with `null` or by emitting nothing. */
module Wrappers {
  datatype Option<+T> = None | Some(value: T)
}
