/** The optional value used for a form field that may be absent and for a
    per-field error message that may be null. */
module Wrappers {
  datatype Option<+T> = None | Some(value: T)
}
