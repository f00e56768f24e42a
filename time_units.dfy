/** Go's time.Duration unit: durations and clock readings are int64 nanosecond counts. */
module TimeUnits {
  const Second: int := 1_000_000_000
  const Minute: int := 60 * Second
}
