/** Optional values: `None` stands for the source's `null` / unset nullable. */
module Wrappers {

  datatype Option<+T> = None | Some(value: T)
}
