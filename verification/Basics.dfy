/** Small definitions shared by the models. */
module Basics {

  datatype Option<+T> = None | Some(value: T)

  type Byte = nat

  const LF: Byte := 0x0A
  const CR: Byte := 0x0D

  function Min(a: int, b: int): int { if a < b then a else b }

  function Max(a: int, b: int): int { if a < b then b else a }
}
