/** The optional value used where the Go code returns a nil pointer, a nil error or an absent flag. */
module Wrappers {
  datatype Option<+T> = None | Some(value: T)
}
