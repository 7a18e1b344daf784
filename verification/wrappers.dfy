/** The optional-value type used for the nullable references of the plugin's fields. */
module Wrappers {

  /** `None` stands for a Java `null`, `Some(v)` for a non-null reference to `v`. */
  datatype Option<+T> = None | Some(value: T)
}
