/** Option, standing for Rust's `Option` (and for a nullable C pointer). */
module Wrappers {
  datatype Option<+T> = None | Some(value: T)
}
