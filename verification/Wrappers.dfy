/** The one wrapper the models share: a C out-parameter or nullable pointer as a value. */
module Wrappers {

  datatype Option<+T> = None | Some(value: T)
}
