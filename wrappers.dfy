/** Optional values: JavaScript's `null` results of the calculators' helpers. */
module Wrappers {

  datatype Option<+T> = None | Some(value: T)
}
