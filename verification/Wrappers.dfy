/** Optional values, shared by every module of the project. */
module Wrappers {
  datatype Option<+T> = None | Some(value: T)
}
