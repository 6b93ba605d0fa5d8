/** Shared by every module that needs them. */
module Basics {
  type byte = bv8

  datatype Option<T> = None | Some(value: T)
}
