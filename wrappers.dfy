/** Optional values: a JavaScript `null`/`undefined` or an absent key. */
module Wrappers {

  datatype Option<+T> = None | Some(value: T)
}
