/** Optional values: `undefined` in the profile format is `None`. */
module Wrappers {
  datatype Option<+T> = None | Some(value: T)
}
