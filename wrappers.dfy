/** Optional values: `undefined` in the menu component becomes `None`. */
module Wrappers {
  datatype Option<+T> = None | Some(value: T)
}
