/** Vocabulary shared by every part of the model. */
module Prelude {
  /** Python's `None` is `None`; a present value `v` is `Some(v)`. */
  datatype Option<+T> = None | Some(value: T)

  /**
   * A calendar date as a day number, so that `d + timedelta(days=n)` is
   * `d + n` and date comparison is integer comparison.
   */
  type Day = int
}
