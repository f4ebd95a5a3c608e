/** Small types shared by all modules. */
module Wrappers {
  datatype Option<+T> = None | Some(value: T)

  type pos = n: int | n > 0 witness 1
  type byte = x: int | 0 <= x < 256
}
