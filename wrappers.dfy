/** Optional values: a nullable Objective-C return value is either nil (None) or an object (Some). */
module Wrappers {

  datatype Option<+T> = None | Some(value: T)
}
