/** Lengths of time in nanoseconds, the unit in which readings of the steady clock are given. */
module Durations {
  const MILLISECOND: nat := 1_000_000
  const SECOND: nat := 1_000_000_000
}
