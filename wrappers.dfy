/** Optional values: a missing or unparsable field of a source row. */
module Wrappers {

  datatype Option<+T> = None | Some(value: T)
}
