/** Option, used wherever the renderer holds a possibly-NULL pointer or value. */
module Wrappers {
  datatype Option<+T> = None | Some(value: T)
}
