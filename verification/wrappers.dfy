/** The usual Some/None wrapper, used where the source yields a JavaScript
    "no value" (Infinity, NaN or undefined) instead of a number or an entry. */
module Wrappers {
  datatype Option<+T> = None | Some(value: T)
}
