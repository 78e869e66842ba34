/** The result of a parse that may fail: `None` stands for JavaScript's NaN. */
module Wrappers {
  datatype Option<+T> = None | Some(value: T)
}
