/** The optional value used where the source reports "not found" or "not parsed". */
module Wrappers {
  datatype Option<+T> = None | Some(value: T)
}
