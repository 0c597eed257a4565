/**
 * The unsigned fixed-width integers the C sources use (`u8`/`uint8_t`,
 * `u16`/`uint16_t`, `u32`/`uint32_t`), shared by the decoder and the
 * keyboard driver.
 */
module FixedWidth {

  newtype u8 = x: int | 0 <= x < 0x100
  newtype u16 = x: int | 0 <= x < 0x1_0000
  newtype u32 = x: int | 0 <= x < 0x1_0000_0000
}
