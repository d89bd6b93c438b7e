/** Bounds that several contexts share. */
module Limits {
  /** Number.isSafeInteger ends at 2^53 - 1. */
  const MAX_SAFE_INTEGER: int := 0x1F_FFFF_FFFF_FFFF

  /** numeric(12,2) holds amounts below 10^10, that is, below 10^12 cents. */
  const NUMERIC_LIMIT: int := 1_000_000_000_000
}
