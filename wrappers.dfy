/** Optional values: the model's stand-in for a Rust `panic!` path or an `Option`. */
module Wrappers {

  datatype Option<+T> = None | Some(value: T)
}
