/** Rust's `Option`, as used for the category filter. */
module Wrappers {
  datatype Option<+T> = None | Some(value: T)
}
