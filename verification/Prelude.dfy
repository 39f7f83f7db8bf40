/** Small value types shared by every module. */
module Prelude {

  /** An octet, as a mathematical integer. */
  type Byte = b: int | 0 <= b < 256

  datatype Option<+T> = None | Some(value: T)

  function Min(a: int, b: int): (m: int) {
    if a <= b then a else b
  }

  function Max(a: int, b: int): (m: int) {
    if a >= b then a else b
  }

  function Min3(a: nat, b: nat, c: nat): (m: nat) {
    if a <= b && a <= c then a else if b <= c then b else c
  }
}
