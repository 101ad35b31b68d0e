/** The one optional type every model below shares. */
module Wrappers {

  datatype Option<+T> = None | Some(value: T)
}
