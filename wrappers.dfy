/** Optional values: a stats file that is missing or unreadable, a parse that fails. */
module Wrappers {

  datatype Option<+T> = None | Some(value: T)
}
