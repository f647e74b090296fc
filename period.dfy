/** The older firmware's period arithmetic (photon/src/Period.h): which period a clock reading
    falls in and how far into it. The floating-point percentage is not modelled. */
module Periods {
  import opened Bytes

  datatype Period = Period(periodIndex: UInt64, periodMillis: UInt64, progressMillis: UInt64)

  /** `Period(periodMillis, systemMillis)`. A zero period would divide by zero. */
  function NewPeriod(periodMillis: UInt64, systemMillis: UInt64): (p: Period)
    requires periodMillis > 0
    ensures p.periodMillis == periodMillis
    ensures p.progressMillis < periodMillis
    ensures p.periodIndex * periodMillis + p.progressMillis == systemMillis
  {
    Period(systemMillis / periodMillis, periodMillis, systemMillis % periodMillis)
  }

  /** The index and progress are the only split of the clock reading into whole periods and a
      remainder shorter than one period. */
  lemma NewPeriodUnique(periodMillis: UInt64, systemMillis: UInt64, index: int, progress: int)
    requires periodMillis > 0
    requires 0 <= progress < periodMillis
    requires index * periodMillis + progress == systemMillis
    ensures index == NewPeriod(periodMillis, systemMillis).periodIndex
    ensures progress == NewPeriod(periodMillis, systemMillis).progressMillis
  {
    var p := NewPeriod(periodMillis, systemMillis);
    var q := p.periodIndex;
    var d := index - q;
    assert d * periodMillis == p.progressMillis - progress by {
      assert d * periodMillis == index * periodMillis - q * periodMillis;
    }
    if d >= 1 {
      MultipleAtLeast(d, periodMillis);
    } else if d <= -1 {
      MultipleAtLeast(-d, periodMillis);
    }
  }

  lemma MultipleAtLeast(d: int, m: int)
    requires d >= 1 && m > 0
    ensures d * m >= m
  {
  }
}
