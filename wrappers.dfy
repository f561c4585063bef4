/** Option type for values that may be missing (a NaN cell, an absent explanation). */
module Wrappers {
  datatype Option<+T> = None | Some(value: T)
}
