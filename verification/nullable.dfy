/** Nullable values as the recording contexts use them, and JavaScript's
    truthiness test on them. */
module Nullable {

  /** A value that may be `null` / `undefined`. */
  datatype Option<+T> = None | Some(value: T)

  /** `if (t)` on a nullable millisecond timestamp: both `null` and `0` are falsy. */
  predicate Truthy(t: Option<int>) {
    t.Some? && t.value != 0
  }

  /** `if (s)` on a nullable string: both `null` and the empty string are falsy. */
  predicate NonEmpty(s: Option<string>) {
    s.Some? && s.value != ""
  }
}
