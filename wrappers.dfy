/** Option, for the JavaScript `undefined` results of `find` and of reading past an array. */
module Wrappers {
  datatype Option<T> = None | Some(value: T)
}
