/** Optional values: an absent output slot, a channel without a node list. */
module Wrappers {

  datatype Option<+T> = None | Some(value: T)
}
