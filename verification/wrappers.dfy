/** Rust's `Option`, used for a token's optional literal and for table lookups. */
module Wrappers {

  datatype Option<+T> = None | Some(value: T)
}
