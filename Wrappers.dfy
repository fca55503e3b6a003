/** The option type used for the operations that may produce nothing. */
module Wrappers {

  datatype Option<+T> = None | Some(value: T)
}
