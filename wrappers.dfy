/** Option type shared by the other modules. */
module Wrappers {

  /** A value that may be absent: a missing JSON property, an unparsable answer, no choice yet. */
  datatype Option<+T> = None | Some(value: T)
}
