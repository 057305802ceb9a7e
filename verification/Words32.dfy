/** 32-bit unsigned integers. */
module Words32 {
  const TWO_32: int := 0x1_0000_0000

  type u32 = x: int | 0 <= x < 0x1_0000_0000
}
