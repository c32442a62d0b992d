/** The optional value of Rust's `Option`, used for optional fields and for parse results. */
module Wrappers {

  datatype Option<+T> = None | Some(value: T)
}
