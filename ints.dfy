/** The fixed-width unsigned integers of the firmware and the checked and saturating
    operations it uses on them, written out over Dafny's unbounded integers. */
module Ints {
  import opened Wrappers

  const U8_MAX: int := 0xFF
  const U16_MAX: int := 0xFFFF
  const U32_MAX: int := 0xFFFF_FFFF

  type u8 = x: int | 0 <= x <= U8_MAX
  type u16 = x: int | 0 <= x <= U16_MAX
  type u32 = x: int | 0 <= x <= U32_MAX

  function Min(a: int, b: int): int { if a <= b then a else b }

  /** `u32::checked_mul` */
  function CheckedMulU32(a: u32, b: u32): Option<u32> {
    if a * b <= U32_MAX then Some(a * b) else None
  }

  /** `u32::checked_div` */
  function CheckedDivU32(a: u32, b: u32): Option<u32> {
    if b == 0 then None else Some(a / b)
  }

  /** `u16::checked_mul` */
  function CheckedMulU16(a: u16, b: u16): Option<u16> {
    if a * b <= U16_MAX then Some(a * b) else None
  }

  /** `u16::checked_div` */
  function CheckedDivU16(a: u16, b: u16): Option<u16> {
    if b == 0 then None else Some(a / b)
  }

  /** `u16::try_from` of a wider unsigned value */
  function U16TryFrom(x: nat): Option<u16> {
    if x <= U16_MAX then Some(x) else None
  }

  /** `u16::wrapping_add`, which is what `+` on `u16` does in a build without overflow checks */
  function WrappingAddU16(a: u16, b: u16): u16 {
    (a + b) % (U16_MAX + 1)
  }

  /** `u16::wrapping_sub`, which is what `-` on `u16` does in a build without overflow checks */
  function WrappingSubU16(a: u16, b: u16): u16 {
    (a - b) % (U16_MAX + 1)
  }

  /** `u16::saturating_add_signed` */
  function SaturatingAddSigned(x: u16, delta: int): u16 {
    if x + delta < 0 then 0 else if x + delta > U16_MAX then U16_MAX else x + delta
  }
}
