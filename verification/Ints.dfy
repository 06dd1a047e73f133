/** The fixed-width integers of the firmware and of the wire formats. Every
    arithmetic step written on them is checked not to leave its range. */
module Ints {
  newtype u8 = x: int | 0 <= x < 0x100
  newtype u16 = x: int | 0 <= x < 0x1_0000
  newtype u32 = x: int | 0 <= x < 0x1_0000_0000
  newtype u64 = x: int | 0 <= x < 0x1_0000_0000_0000_0000
  newtype i16 = x: int | -0x8000 <= x < 0x8000
  newtype i32 = x: int | -0x8000_0000 <= x < 0x8000_0000

  const U32_MAX: nat := 0xFFFF_FFFF
  const U64_MAX: nat := 0xFFFF_FFFF_FFFF_FFFF

  /** u64::saturating_add(1). */
  function SaturatingNext(n: nat): nat {
    if n < U64_MAX then n + 1 else n
  }

  /** u32::saturating_add(1). */
  function SaturatingNext32(n: nat): nat {
    if n < U32_MAX then n + 1 else n
  }
}
