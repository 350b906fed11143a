/** `Option`: Kotlin's nullable `T?`. */
module Wrappers {

  /** `Some(v)` for a non-null value, `None` for Kotlin's `null`. */
  datatype Option<+T> = None | Some(value: T)
}
