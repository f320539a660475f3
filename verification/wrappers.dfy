/** The optional value used throughout the model for JavaScript's `undefined`-or-value slots. */
module Wrappers {

  /** `None` stands for an absent (undefined) value, `Some(v)` for a present one. */
  datatype Option<+T> = None | Some(value: T)
}
