/** Option, used for nullable columns and optional lookups. */
module Wrappers {

  datatype Option<+T> = None | Some(value: T)
}
