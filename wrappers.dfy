/** Optional values: a JSON field that may be null or absent, a running minimum not yet set. */
module Wrappers {

  datatype Option<+T> = None | Some(value: T)
}
