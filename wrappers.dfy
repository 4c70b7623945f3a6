/** Optional values, for parsers that may reject their input and for what a tick may post. */
module Wrappers {

  datatype Option<+T> = None | Some(value: T)

}
