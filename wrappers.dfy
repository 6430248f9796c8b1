/** Optional values, for the results of decoding a payload or fetching a batch. */
module Wrappers {
  datatype Option<T> = None | Some(value: T)
}
