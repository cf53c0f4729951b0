/** A value that may be missing: absent objects, failed look-ups, unreadable texts. */
module Wrappers {

  datatype Option<+T> = None | Some(value: T)
}
