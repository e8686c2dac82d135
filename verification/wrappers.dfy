/** Optional values: `None` stands for JavaScript's `NaN` / `undefined` results. */
module Wrappers {

  datatype Option<+T> = None | Some(value: T)
}
