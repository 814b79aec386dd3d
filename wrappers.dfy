/** The optional value used wherever the source can yield `undefined` or `NaN`. */
module Wrappers {
  datatype Option<T> = None | Some(value: T)
}
