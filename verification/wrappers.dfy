/** The Option datatype used for Java's Optional and for operations that may fail. */
module Wrappers {

  datatype Option<+T> = None | Some(value: T)
}
