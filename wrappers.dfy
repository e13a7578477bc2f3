/** The optional value used wherever the scripts read something that may be absent. */
module Wrappers {

  datatype Option<+T> = None | Some(value: T)
}
