/** Option, standing for Go's comma-ok pair `(value, ok)`: `Some(v)` is `(v, true)`,
    `None` is `(nil, false)`. */
module Wrappers {

  datatype Option<T> = None | Some(value: T)
}
