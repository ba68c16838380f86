/** The optional value that stands for JavaScript's `undefined` where the popup script may see one. */
module Wrappers {

  datatype Option<+T> = None | Some(value: T)
}
