// Clocks are integer microseconds.
module Clock {
  const SECOND: int := 1_000_000
  const MINUTE: int := 60_000_000
  const HOUR: int := 3_600_000_000
  const DAY: int := 86_400_000_000

  lemma Units()
    ensures SECOND == 1000 * 1000 && MINUTE == 60 * SECOND && HOUR == 60 * MINUTE && DAY == 24 * HOUR
  {
  }
}
