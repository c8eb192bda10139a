/** Go's optional values: a `nil` or a present value. */
module Wrappers {

  /** `None` stands for Go's `nil`. */
  datatype Option<+T> = None | Some(value: T)
}
