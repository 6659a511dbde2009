module Clock {
  /** Instants and durations, in nanoseconds. */
  type Time = int

  const MINUTE: Time := 60_000_000_000
}
