/** Optional values, used wherever the source returns `None` or may have nothing to give. */
module Wrappers {

  datatype Option<+T> = None | Some(value: T)

}
