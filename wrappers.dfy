/** The optional value used where the C code leaves a `char *` out-parameter NULL. */
module Wrappers {
  datatype Option<+T> = None | Some(value: T)
}
