/** Python's `None`-or-value, used for optional neighbours, regex matches and skipped writes. */
module Wrappers {

  datatype Option<+T> = None | Some(value: T)
}
