/** Optional values: a regular-expression search either finds a match or not. */
module Wrappers {
  datatype Option<+T> = None | Some(value: T)
}
