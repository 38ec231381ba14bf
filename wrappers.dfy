/** Optional values, standing for Python's `None` or the absence of a result. */
module Wrappers {

  datatype Option<+T> = None | Some(value: T)
}
