/** Optional values, used for capabilities a subject may lack. */
module Wrappers {

  datatype Option<+T> = None | Some(value: T)
}
