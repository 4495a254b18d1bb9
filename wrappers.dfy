/** Optional values: the model's counterpart of `undefined` in the source. */
module Wrappers {

  datatype Option<+T> = None | Some(value: T)
}
