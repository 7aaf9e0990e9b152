/** Small helper datatypes shared by the modules of this model. */
module Wrappers {

  /** A value that may be absent: a missing DOM element, no matching section. */
  datatype Option<+T> = None | Some(value: T)
}
