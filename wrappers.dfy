/** Optional values: an absent JavaScript argument (`undefined`/`null`) is `None`. */
module Wrappers {
  datatype Option<T> = None | Some(value: T)
}
