/** Clock readings and durations are counts of nanoseconds. */
module Time {
  const SECOND: int := 1_000_000_000
  const MINUTE: int := 60 * SECOND
  const INT64_MAX: int := 0x7FFF_FFFF_FFFF_FFFF
}
