/** Values shared by the modules: a missing value, a value or an error, and the largest u32. */
module Wrappers {

  datatype Option<+T> = None | Some(value: T)

  datatype Result<+T, +E> = Ok(value: T) | Err(error: E)

  const U32_MAX := 0xFFFF_FFFF
}
