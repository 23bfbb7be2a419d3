/** The optional value used for JavaScript's `undefined` results in this model. */
module Wrappers {
  datatype Option<+T> = None | Some(value: T)
}
