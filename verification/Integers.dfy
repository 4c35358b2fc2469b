/** The machine integers of the source, each at its width. */
module Integers {
  newtype uint8 = x: int | 0 <= x < 0x100
  newtype uint32 = x: int | 0 <= x < 0x1_0000_0000
  newtype uint64 = x: int | 0 <= x < 0x1_0000_0000_0000_0000
  newtype int16 = x: int | -0x8000 <= x < 0x8000
  newtype int32 = x: int | -0x8000_0000 <= x < 0x8000_0000

  const INT64_MAX: int := 0x7fff_ffff_ffff_ffff

  /** Arithmetic on it is unbounded: a sum is an `int64` again only where that is proved. */
  type int64 = x: int | -INT64_MAX - 1 <= x <= INT64_MAX
}
