/** Optional values: an absent message payload or an empty context store. */
module Wrappers {

  datatype Option<T> = None | Some(value: T)
}
