/** Optional values: `undefined`/`null` in the viewer become `None`. */
module Wrappers {
  datatype Option<T> = None | Some(value: T)
}
