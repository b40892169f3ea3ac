/** The optional value the producer returns: `None` when no outcome was drawn. */
module Wrappers {
  datatype Option<+T> = None | Some(value: T)
}
