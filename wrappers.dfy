/** Optional values, standing for Python's `None` and for a dictionary key that may be absent. */
module Wrappers {

  datatype Option<+T> = None | Some(value: T)
}
