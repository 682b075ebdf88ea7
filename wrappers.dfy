/** An optional value: `None` stands for JavaScript's `null`/`undefined` where
    the script tests for them. */
module Wrappers {
  datatype Option<+T> = None | Some(value: T)
}
