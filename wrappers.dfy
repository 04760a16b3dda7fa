/** Optional values, standing for Python's `None` and for "no matching row". */
module Wrappers {

  datatype Option<+T> = None | Some(value: T)
}
