/** The optional value used for nullable fields and failed look-ups. */
module Wrappers {

  datatype Option<+T> = None | Some(value: T)
}
