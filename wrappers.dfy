/** Option stands for a value that may be missing: a pandas NaN / NaT cell,
    a failed lookup, or an exception caught by the caller. */
module Wrappers {
  datatype Option<+T> = None | Some(value: T)
}
