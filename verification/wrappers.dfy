/** Optional values, used for the readings and results that may be absent. */
module Wrappers {

  datatype Option<+T> = None | Some(value: T)
}
