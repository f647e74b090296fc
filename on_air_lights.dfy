/** The colours and patterns of the on-air light, and the activity-set to light-state
    decision table (`OnAirLightState.fromUserActivities`). */
module OnAirLights {
  import opened Wrappers
  import opened UserStates

  datatype Color = Black | White | Red | Yellow | Lime | Cyan | Blue | Magenta

  datatype Pattern = Alternate | Blink | Flash | Progress | Pulse | Solid | Spin

  datatype OnAirLightState = OnAirLightState(color: Color, duration: int, pattern: Pattern)

  /** `Partial<OnAirLightState>`: what a caller may pass to `setState`. */
  datatype PartialLightState = PartialLightState(color: Option<Color>, duration: Option<int>, pattern: Option<Pattern>)

  const StateDuration: int := 2000

  function ColorName(c: Color): string {
    match c
    case Black => "black"
    case White => "white"
    case Red => "red"
    case Yellow => "yellow"
    case Lime => "lime"
    case Cyan => "cyan"
    case Blue => "blue"
    case Magenta => "magenta"
  }

  function PatternName(p: Pattern): string {
    match p
    case Alternate => "alternate"
    case Blink => "blink"
    case Flash => "flash"
    case Progress => "progress"
    case Pulse => "pulse"
    case Solid => "solid"
    case Spin => "spin"
  }

  /** The light state for a set of activities. The argument is a set, so the result depends only
      on which activities are present. */
  function FromUserActivities(activities: set<UserActivity>): (state: OnAirLightState)
    ensures state.duration == StateDuration
    ensures Detected !in activities ==> state.color == Black && state.pattern == Solid
    ensures Detected in activities && Presenting in activities ==> state.color == Red && state.pattern == Pulse
    ensures Detected in activities && Presenting !in activities && Meeting in activities ==>
              state.color == Red && state.pattern == Solid
    ensures Detected in activities && Presenting !in activities && Meeting !in activities && Busy in activities ==>
              state.color == Yellow && state.pattern == Solid
    ensures Detected in activities && Busy !in activities && Meeting !in activities && Presenting !in activities ==>
              state.color == Lime && state.pattern == Solid
  {
    var state := OnAirLightState(Black, StateDuration, Solid);
    if Detected in activities then
      if Presenting in activities then state.(color := Red, pattern := Pulse)
      else if Meeting in activities then state.(color := Red, pattern := Solid)
      else if Busy in activities then state.(color := Yellow, pattern := Solid)
      else state.(color := Lime, pattern := Solid)
    else state
  }

  // An independent reading of the same table: "most urgent wins". Rank the activities, take the
  // highest rank present, and look the light state up by that rank.

  function Urgency(a: UserActivity): nat {
    match a
    case Detected => 1
    case Busy => 2
    case Meeting => 3
    case Presenting => 4
  }

  /** The highest urgency among a non-empty set of activities. */
  ghost function MostUrgent(activities: set<UserActivity>): (r: nat)
    requires activities != {}
    ensures exists a :: a in activities && Urgency(a) == r
    ensures forall a :: a in activities ==> Urgency(a) <= r
    decreases |activities|
  {
    var a :| a in activities;
    var rest := activities - {a};
    if rest == {} then
      assert activities == {a};
      Urgency(a)
    else
      var m := MostUrgent(rest);
      if Urgency(a) < m then m else Urgency(a)
  }

  function StateForUrgency(rank: nat): OnAirLightState {
    if rank >= 4 then OnAirLightState(Red, StateDuration, Pulse)
    else if rank == 3 then OnAirLightState(Red, StateDuration, Solid)
    else if rank == 2 then OnAirLightState(Yellow, StateDuration, Solid)
    else OnAirLightState(Lime, StateDuration, Solid)
  }

  /** Once the user is detected, the table is "the most urgent activity present wins";
      without `detected` the light is off whatever else is present. */
  lemma {:induction false} FromUserActivitiesIsMostUrgentWins(activities: set<UserActivity>)
    ensures Detected in activities ==> FromUserActivities(activities) == StateForUrgency(MostUrgent(activities))
    ensures Detected !in activities ==> FromUserActivities(activities) == OnAirLightState(Black, StateDuration, Solid)
  {
    if Detected in activities {
      var m := MostUrgent(activities);
      if Presenting in activities {
        assert Urgency(Presenting) <= m;
      } else if Meeting in activities {
        assert Urgency(Meeting) <= m;
        var a :| a in activities && Urgency(a) == m;
      } else if Busy in activities {
        assert Urgency(Busy) <= m;
        var a :| a in activities && Urgency(a) == m;
      } else {
        var a :| a in activities && Urgency(a) == m;
        assert a == Detected;
      }
    }
  }
}
