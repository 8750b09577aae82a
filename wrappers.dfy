/** Optional values, used for the optional uploaded file, for lookups that may
    find nothing, and for the optional parts of a response body. */
module Wrappers {

  datatype Option<+T> = None | Some(value: T)
}
