/** The firmware's animation clock (photon/src/Timeline.h): a duration of at least one
    millisecond and the index of the current period. The fractional progress is floating point
    and is not modelled. */
module Timelines {
  import opened Bytes

  class Timeline {
    var duration: UInt64
    var index: UInt64

    /** `Timeline(duration = 2000)`: the duration starts at 0 and `setDuration` may refuse the
        argument, so a zero argument leaves it at 0. */
    constructor (duration: UInt64)
      ensures duration >= 1 ==> GetDuration() == duration
      ensures duration == 0 ==> GetDuration() == 0
      ensures Index() == 0
    {
      this.duration := 0;
      index := 0;
      new;
      var _ := SetDuration(duration);
    }

    function GetDuration(): UInt64
      reads this
    {
      duration
    }

    function Index(): UInt64
      reads this
    {
      index
    }

    /** `setDuration(duration)`: refuses 0 and keeps the old duration; stores anything else. */
    method SetDuration(duration: UInt64) returns (ok: bool)
      modifies this
      ensures ok <==> duration >= 1
      ensures ok ==> GetDuration() == duration
      ensures !ok ==> GetDuration() == old(GetDuration())
      ensures Index() == old(Index())
    {
      if duration < 1 {
        return false;
      }
      this.duration := duration;
      return true;
    }

    /** `update()` at clock reading `systemMillis`: the index of the period it falls in. A zero
        duration (a timeline constructed with 0) would divide by zero. */
    method Update(systemMillis: UInt64)
      requires GetDuration() > 0
      modifies this
      ensures GetDuration() == old(GetDuration())
      ensures Index() * GetDuration() <= systemMillis < (Index() + 1) * GetDuration()
      ensures Index() * GetDuration() + systemMillis % GetDuration() == systemMillis
    {
      index := systemMillis / duration;
    }
  }
}
