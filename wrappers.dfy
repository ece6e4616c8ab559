/** Java references that may be null, as values. */
module Wrappers {

  datatype Option<+T> = None | Some(value: T)
}
