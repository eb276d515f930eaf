/** Types and machine-width constants shared by the models. */
module Common {
  datatype Option<+T> = None | Some(value: T)

  function Min(x: nat, y: nat): nat { if x < y then x else y }

  type Byte = b: int | 0 <= b < 256

  const TWO16: nat := 0x1_0000
  const TWO32: nat := 0x1_0000_0000
  const TWO64: nat := 0x1_0000_0000_0000_0000
}
