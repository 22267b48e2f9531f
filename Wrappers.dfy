/** Optional values. A temperature that the C++ code represents as a quiet NaN
    is `None` here; a valid reading is `Some(celsius)`. */
module Wrappers {

  datatype Option<+T> = None | Some(value: T)
}
