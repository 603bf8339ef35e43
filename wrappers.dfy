/** Optional values, used for JavaScript results that may be NaN or null. */
module Wrappers {

  datatype Option<+T> = None | Some(value: T)
}
