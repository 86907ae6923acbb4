/** Optional values, used where the source signals "no result" through a boolean
    return and leaves its out-parameters unassigned. */
module Wrappers {

  datatype Option<+T> = None | Some(value: T)
}
