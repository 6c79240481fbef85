/** Python's "a value or None", used for the optional proxy list and proxy mapping. */
module Wrappers {

  datatype Option<+T> = None | Some(value: T)
}
