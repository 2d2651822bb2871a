/** Optional values: a capture stream that may be absent, a command that may not match. */
module Wrappers {

  datatype Option<+T> = None | Some(value: T)
}
