/** Optional values: the model's stand-in for a null pointer or a -1 sentinel. */
module Wrappers {

  datatype Option<+T> = None | Some(value: T)
}
