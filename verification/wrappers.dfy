/** The "absent value" used where the source returns None. */
module Wrappers {

  datatype Option<+T> = None | Some(value: T)
}
