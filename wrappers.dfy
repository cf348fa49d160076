/** Optional values: a JavaScript lookup that may come back `undefined`, a search that may find nothing. */
module Wrappers {

  datatype Option<+T> = None | Some(value: T)
}
