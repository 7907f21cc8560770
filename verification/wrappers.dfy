/** Optional values: a session-state key that may be absent, a backend that may be missing. */
module Wrappers {
  datatype Option<+T> = None | Some(value: T)
}
