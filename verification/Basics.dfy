/** What the modules share. */
module Basics {

  datatype Option<+T> = None | Some(value: T)

  type Byte = x: int | 0 <= x < 256

  // Words are 32 bits wide.
  const WORD := 0x1_0000_0000

  function Min(a: nat, b: nat): nat {
    if a < b then a else b
  }
}
