/** The fixed-width Swift integer types the mocks use. Because these are
    newtypes, every arithmetic operation and conversion on them must be proved
    to stay in range, exactly where Swift would trap at run time. */
module SwiftIntegers {

  /** Swift's `UInt64`. */
  newtype UInt64 = x: int | 0 <= x < 0x1_0000_0000_0000_0000

  /** Swift's `Int` on a 64-bit platform. */
  newtype Int64 = x: int | -0x8000_0000_0000_0000 <= x < 0x8000_0000_0000_0000

  /** `Int.max` on a 64-bit platform. */
  const IntMax: Int64 := 0x7FFF_FFFF_FFFF_FFFF
}
