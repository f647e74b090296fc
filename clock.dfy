/** Wall-clock values and the largest finite JavaScript number, shared by the two TTL caches. */
module Clock {

  /** A `Date.now()` reading: an ECMAScript time value, an integral number of milliseconds of
      magnitude at most 8.64e15 (section 21.4.1.1 of ECMA-262). */
  type TimeValue = t: int | -8_640_000_000_000_000 <= t <= 8_640_000_000_000_000

  /** `Number.MAX_VALUE`, (2^53 - 1) * 2^971, written out exactly. */
  const MaxValue: int := 0xfffffffffffff800000000000000000000000000000000000000000000000000000000000000000000000000000000000000000000000000000000000000000000000000000000000000000000000000000000000000000000000000000000000000000000000000000000000000000000000000000000000000000000000000

  /** No clock reading ever exceeds `Number.MAX_VALUE`, so an expiry parked there never passes. */
  lemma NoTimeBeyondMaxValue(now: TimeValue)
    ensures now < MaxValue
  {
  }
}
