/** The optional value used for C's NULL returns and absent hardware readings. */
module Wrappers {
  datatype Option<+T> = None | Some(value: T)
}
