/** Optional values: `None` stands for JavaScript's `undefined` or for a thrown error. */
module Wrappers {
  datatype Option<+T> = None | Some(value: T)
}
