/** The optional value the other modules return where the source returns a
    "comma ok" pair, a nil pointer or undefined. */
module Outcomes {
  datatype Option<+T> = None | Some(value: T)
}
