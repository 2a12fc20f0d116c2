/** Failure and absence values shared by every module. */
module Wrappers {

  datatype Option<+T> = None | Some(value: T)

  datatype Result<+T, +E> = Ok(value: T) | Err(error: E)

  /** The machine integers whose overflow the program checks. */
  const U32_MODULUS: int := 0x1_0000_0000
  const U64_MAXIMUM: int := 0xFFFF_FFFF_FFFF_FFFF
  const U128_MAXIMUM: int := 0xFFFF_FFFF_FFFF_FFFF_FFFF_FFFF_FFFF_FFFF

  type u32 = x: int | 0 <= x < 0x1_0000_0000
  type u64 = x: int | 0 <= x <= 0xFFFF_FFFF_FFFF_FFFF
}
