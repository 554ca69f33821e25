/** The optional value used across the model: `None` stands for JavaScript's
    `undefined` (an omitted argument) or for a missing storage key. */
module Wrappers {
  datatype Option<+T> = None | Some(value: T)
}
