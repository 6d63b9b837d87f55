/** The optional value that stands for JavaScript's `null`-or-object results. */
module Wrappers {

  datatype Option<+T> = None | Some(value: T)
}
