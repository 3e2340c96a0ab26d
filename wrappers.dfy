/** Optional values, used for a row's `unit` and for the Size input's displayed number. */
module Wrappers {

  datatype Option<+T> = None | Some(value: T)
}
