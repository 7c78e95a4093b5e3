/** The fixed-width integers of the C++ and Rust sources, as ranges of unbounded integers. */
module MachineInts {

  const TWO_TO_THE_32: int := 0x1_0000_0000
  const TWO_TO_THE_63: int := 0x8000_0000_0000_0000
  const TWO_TO_THE_64: int := 0x1_0000_0000_0000_0000

  /** C++ `uint32_t` (port and state indices). */
  newtype u32 = x: int | 0 <= x < 0x1_0000_0000

  /** C++ `uint64_t` / Rust `u64` (host frame counter, log-file numbers). */
  newtype u64 = x: int | 0 <= x < 0x1_0000_0000_0000_0000

  /** C++ `int64_t` / Rust `i64` (sample positions). */
  newtype i64 = x: int | -0x8000_0000_0000_0000 <= x < 0x8000_0000_0000_0000
}
