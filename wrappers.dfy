/** Optional values, used for JSON fields that may be absent. */
module Wrappers {

  datatype Option<+T> = None | Some(value: T)
}
