/** The optional value used for `T | null` fields and absent dates. */
module Wrappers {
  datatype Option<+T> = None | Some(value: T)
}
