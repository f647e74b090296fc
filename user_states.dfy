/** The current generation of activity observations (user-states.ts): four activities used as
    pseudo bit fields, a list of them per observation, and the by-location aggregation. */
module UserStates {

  datatype UserActivity = Detected | Busy | Meeting | Presenting

  /** The string value each activity has in payloads and stored records. */
  function ActivityName(a: UserActivity): string {
    match a
    case Detected => "detected"
    case Busy => "busy"
    case Meeting => "meeting"
    case Presenting => "presenting"
  }

  datatype Source = Source(deviceId: string, serviceName: string)

  /** One source's latest report for a user at a location. Event keys are strings here, as
      every events service of the system uses string keys. */
  datatype UserState = UserState(
    activities: seq<UserActivity>,
    eventKey: string,
    locationId: string,
    source: Source,
    timestamp: string,
    userId: string,
    version: int)

  /** The locations that occur in `states`. */
  function LocationsOf(states: seq<UserState>): set<string> {
    set s | s in states :: s.locationId
  }

  /** The union of the `activities` of every state at `loc`. */
  function ActivitiesAt(states: seq<UserState>, loc: string): set<UserActivity> {
    set s, a | s in states && s.locationId == loc && a in s.activities :: a
  }

  lemma LocationsOfSnoc(states: seq<UserState>, s: UserState)
    ensures LocationsOf(states + [s]) == LocationsOf(states) + {s.locationId}
  {
    var xs := states + [s];
    forall l | l in LocationsOf(xs) ensures l in LocationsOf(states) + {s.locationId} {
      var t :| t in xs && t.locationId == l;
      if t != s { assert t in states; }
    }
  }

  lemma ActivitiesAtSnoc(states: seq<UserState>, s: UserState, loc: string)
    ensures ActivitiesAt(states + [s], loc)
         == ActivitiesAt(states, loc) + (if s.locationId == loc then set a | a in s.activities else {})
  {
    var xs := states + [s];
    forall a | a in ActivitiesAt(xs, loc)
      ensures a in ActivitiesAt(states, loc) + (if s.locationId == loc then set a | a in s.activities else {})
    {
      var t :| t in xs && t.locationId == loc && a in t.activities;
      if t != s { assert t in states; }
    }
    forall a | a in ActivitiesAt(states, loc) ensures a in ActivitiesAt(xs, loc) {
      var t :| t in states && t.locationId == loc && a in t.activities;
      assert t in xs;
    }
    if s.locationId == loc {
      forall a | a in s.activities ensures a in ActivitiesAt(xs, loc) {
        assert s in xs;
      }
    }
  }

  /** `UserState.aggregateActivitiesByLocation`: one entry per location that occurs in the input,
      holding the union of the activities reported there. A location whose states all have
      empty `activities` still gets an (empty) entry. The input is a value and is not changed. */
  method AggregateActivitiesByLocation(states: seq<UserState>)
    returns (locations: map<string, set<UserActivity>>)
    ensures locations.Keys == LocationsOf(states)
    ensures forall loc :: loc in locations ==> locations[loc] == ActivitiesAt(states, loc)
  {
    locations := map[];
    var i := 0;
    while i < |states|
      invariant 0 <= i <= |states|
      invariant locations.Keys == LocationsOf(states[..i])
      invariant forall l :: l in locations ==> locations[l] == ActivitiesAt(states[..i], l)
    {
      var state := states[i];
      assert states[..i + 1] == states[..i] + [state];
      LocationsOfSnoc(states[..i], state);
      if state.locationId !in locations {
        locations := locations[state.locationId := {}];
      }
      var j := 0;
      while j < |state.activities|
        invariant 0 <= j <= |state.activities|
        invariant locations.Keys == LocationsOf(states[..i + 1])
        invariant forall l :: l in locations && l != state.locationId ==>
                    locations[l] == ActivitiesAt(states[..i], l)
        invariant locations[state.locationId]
               == ActivitiesAt(states[..i], state.locationId) + set a | a in state.activities[..j]
      {
        assert state.activities[..j + 1] == state.activities[..j] + [state.activities[j]];
        locations := locations[state.locationId := locations[state.locationId] + {state.activities[j]}];
        j := j + 1;
      }
      assert state.activities[..j] == state.activities;
      forall l | l in locations ensures locations[l] == ActivitiesAt(states[..i + 1], l) {
        ActivitiesAtSnoc(states[..i], state, l);
      }
      i := i + 1;
    }
    assert states[..i] == states;
  }

  /** Reordering (or repeating) the input states does not change the aggregation: both the
      locations and each location's activity set depend only on which states occur. */
  lemma AggregationIgnoresOrder(xs: seq<UserState>, ys: seq<UserState>, loc: string)
    requires multiset(xs) == multiset(ys)
    ensures LocationsOf(xs) == LocationsOf(ys)
    ensures ActivitiesAt(xs, loc) == ActivitiesAt(ys, loc)
  {
    forall s ensures s in xs <==> s in ys {
      assert s in xs <==> s in multiset(xs);
      assert s in ys <==> s in multiset(ys);
    }
  }
}
