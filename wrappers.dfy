/** Optional values: a JavaScript `null`/`undefined` or a missing property. */
module Wrappers {

  datatype Option<+T> = None | Some(value: T)
}
