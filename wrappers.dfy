/** Optional values: a reference that may be null, a parse that may fail. */
module Wrappers {

  datatype Option<+T> = None | Some(value: T)
}
