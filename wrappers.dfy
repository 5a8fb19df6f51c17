/** The optional value used for the winner and the side holding advantage (Python's None). */
module Wrappers {
  datatype Option<T> = None | Some(value: T)
}
