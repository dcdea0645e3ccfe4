/** The integer types of the original, and the operations on them that are not plain arithmetic. */
module Integers {

  const U32_MAX := 0xFFFF_FFFF
  const USIZE_MAX := 0xFFFF_FFFF_FFFF_FFFF

  type u32 = x: int | 0 <= x <= U32_MAX
  type usize = x: int | 0 <= x <= USIZE_MAX

  function Min(a: nat, b: nat): nat {
    if a <= b then a else b
  }

  function SaturatingAdd(a: usize, b: usize): usize {
    if a + b > USIZE_MAX then USIZE_MAX else a + b
  }

  function SaturatingSub(a: usize, b: usize): usize {
    if a < b then 0 else a - b
  }
}
