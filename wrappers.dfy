/** A value that may be absent: JavaScript's `null` for the connection's
    peer id before it registers, an omitted optional field in a frame. */
module Wrappers {
  datatype Option<+T> = None | Some(value: T)
}
