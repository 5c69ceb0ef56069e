/** The Option type used for handles that may not have been assigned yet. */
module Wrappers {

  datatype Option<+T> = None | Some(value: T)
}
