/** The Option datatype shared by the components. */
module Wrappers {

  datatype Option<+T> = None | Some(value: T)
}
