/** Values that may be missing. */
module Wrappers {
  datatype Option<+T> = None | Some(value: T)

  /** Python's truth of an optional string. */
  predicate Truthy(s: Option<string>) {
    s.Some? && s.value != ""
  }
}
