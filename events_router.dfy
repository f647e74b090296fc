/** The events router (ts/lib/routers/events.ts) over the filesystem-backed stores: `POST
    /events` stores the request as an event, converts it with the first converter that
    recognises it, re-derives the light from the user's observations and answers 201 or 202;
    `GET /events/:eventKey` reads an event back. The light is an abstract actuator whose every
    requested state is logged; whether its `setState` succeeds is an input. */
module EventsRouter {
  import opened Wrappers
  import opened Json
  import opened Events
  import opened UserStates
  import opened FileSystem
  import opened OnAirLights
  import FsEvents
  import FsUserStates
  import Locations

  type Converter = EventAndKey -> Option<UserState>

  /** The parsed body and query of a request, both objects. */
  datatype Request = Request(body: map<string, Json>, query: map<string, Json>)

  datatype Response = Response(status: int, location: Option<string>, body: Option<Event>)

  /** `{ ...req.body, ...req.query }`: on a shared name the query's value wins. */
  function MergedData(req: Request): (data: map<string, Json>)
    ensures data.Keys == req.body.Keys + req.query.Keys
    ensures forall k :: k in req.query ==> data[k] == req.query[k]
    ensures forall k :: k in req.body && k !in req.query ==> data[k] == req.body[k]
  {
    req.body + req.query
  }

  /** The converter that wins for an event: the first that returns a state. */
  predicate FirstToConvert(converters: seq<Converter>, eventAndKey: EventAndKey, i: nat) {
    i < |converters| && converters[i](eventAndKey).Some? &&
    forall j :: 0 <= j < i ==> converters[j](eventAndKey).None?
  }

  function LocationOf(eventKey: string): string {
    "/events/" + FsEvents.EventKeyToUrlPart(eventKey)
  }

  /** The state of the light that the activities at the global location call for, the empty
      set where there are none. */
  function GlobalLightState(states: seq<UserState>): OnAirLightState {
    FromUserActivities(ActivitiesAt(states, Locations.LocationIdGlobal))
  }

  class EventsRouterService {
    const events: FsEvents.FsEventsService
    const userStates: FsUserStates.FsUserStatesService
    const converters: seq<Converter>
    /** Every state handed to the light's `setState`, in order. */
    var lightStates: seq<OnAirLightState>

    constructor(events: FsEvents.FsEventsService, userStates: FsUserStates.FsUserStatesService, converters: seq<Converter>)
      ensures this.events == events && this.userStates == userStates && this.converters == converters
      ensures lightStates == []
    {
      this.events := events;
      this.userStates := userStates;
      this.converters := converters;
      lightStates := [];
    }

    /** `GET /events/:eventKey`: 200 with the event, 404 when the key names none (or does not
        decode), 500 when the read fails. */
    function GetEvent(urlPart: string): (res: Response)
      reads events
      ensures res.status == 200 <==> exists k :: FsEvents.EventKeyFromUrlPart(urlPart) == Some(k) && events.ReadEvent(k).Ok? && events.ReadEvent(k).value.Some?
      ensures res.status == 200 ==> res.body == events.ReadEvent(FsEvents.EventKeyFromUrlPart(urlPart).value).value
      ensures res.status == 500 <==> exists k :: FsEvents.EventKeyFromUrlPart(urlPart) == Some(k) && events.ReadEvent(k).Err?
      ensures res.status in {200, 404, 500}
    {
      match FsEvents.EventKeyFromUrlPart(urlPart)
      case None => Response(404, None, None)
      case Some(eventKey) =>
        match events.ReadEvent(eventKey)
        case Err(_) => Response(500, None, None)
        case Ok(None) => Response(404, None, None)
        case Ok(Some(event)) => Response(200, None, Some(event))
    }

    /** `POST /events`. `eventId` and `timestamp` stand for `uuid()` and the clock;
        `eventWrite` and `stateWrite` for the errors, if any, with which the event's and the
        observation's writes reject; `lightAccepts` for whether the light's `setState` resolves.
        A rejection propagates out of the handler as a 500. */
    method PostEvent(req: Request, eventId: string, timestamp: string,
                     eventWrite: Option<string>, stateWrite: Option<string>, lightAccepts: bool)
      returns (res: Response, ghost winner: Option<nat>)
      modifies this, events, userStates
      ensures req.body == map[] && req.query == map[] ==>
        res.status == 400 && unchanged(this, events, userStates)
      // a failed event write is the answer: nothing is stored and nothing after it runs
      ensures (req.body != map[] || req.query != map[]) && eventWrite.Some? ==>
        res == Response(500, None, None) && unchanged(this, events, userStates)
      ensures (req.body != map[] || req.query != map[]) && eventWrite.None? ==>
        var event := Event(JObj(MergedData(req)), eventId, timestamp);
        var eventKey := FsEvents.EventKey(event);
        var eak := EventAndKey(event, eventKey);
        // the event is stored whatever happens next
        && events.files == old(events.files)[eventKey := Stored(event)]
        // the winner is the first converter that returns a state, or there is none
        && (winner.None? <==> forall i :: 0 <= i < |converters| ==> converters[i](eak).None?)
        && (winner.Some? ==> FirstToConvert(converters, eak, winner.value))
        // with no winner nothing else changes and the answer is 202
        && (winner.None? ==>
              && res == Response(202, Some(LocationOf(eventKey)), Some(event))
              && userStates.files == old(userStates.files) && lightStates == old(lightStates))
        // with a winner its observation is written; a failed write is a 500 with nothing read
        // and the light untouched, else the light is re-derived from the states read back
        && (winner.Some? ==>
              var s := converters[winner.value](eak).value;
              && (stateWrite.Some? ==>
                    && res == Response(500, None, None)
                    && userStates.files == old(userStates.files) && lightStates == old(lightStates))
              && (stateWrite.None? ==>
                    && userStates.files == old(userStates.files)[FsUserStates.UserStateKey(s) := Stored(s)]
                    && LightFollowsStates(s, lightAccepts, res.status, old(lightStates)))
              && (res.status == 201 ==> res == Response(201, Some(LocationOf(eventKey)), Some(event)))
              && (res.status == 500 ==> res == Response(500, None, None)))
      ensures res.status in {201, 202} ==>
        var event := Event(JObj(MergedData(req)), eventId, timestamp);
        GetEvent(FsEvents.EventKeyToUrlPart(FsEvents.EventKey(event))) == Response(200, None, Some(event))
    {
      winner := None;
      if req.body == map[] && req.query == map[] {
        return Response(400, None, None), None;
      }
      var event := Event(JObj(MergedData(req)), eventId, timestamp);
      var created := events.CreateEvent(event, eventWrite);
      if created.Err? {
        return Response(500, None, None), None;
      }
      var eventKey := created.value;
      var eak := EventAndKey(event, eventKey);
      var found: Option<UserState> := None;
      var i := 0;
      while i < |converters|
        invariant 0 <= i <= |converters|
        invariant forall j :: 0 <= j < i ==> converters[j](eak).None?
        invariant events.files == old(events.files)[eventKey := Stored(event)]
        invariant unchanged(this, userStates)
      {
        var state := converters[i](eak);
        if state.Some? {
          found := state;
          winner := Some(i);
          break;
        }
        i := i + 1;
      }
      assert GetEvent(FsEvents.EventKeyToUrlPart(eventKey)) == Response(200, None, Some(event)) by {
        FsEvents.UrlPartRoundTrip(eventKey);
      }
      if found.None? {
        return Response(202, Some(LocationOf(eventKey)), Some(event)), winner;
      }
      var status := RecordUserState(found.value, stateWrite, lightAccepts);
      if status == 500 {
        return Response(500, None, None), winner;
      }
      res := Response(201, Some(LocationOf(eventKey)), Some(event));
    }

    /** What follows the store of `s`: the user's states at its location are read back; when
        the read succeeds the light is set, once, from the global activities of exactly those
        states, and the answer is 201 if the light accepts it; when the read or the light fails
        the answer is 500, and a failed read leaves the light alone. */
    ghost predicate LightFollowsStates(s: UserState, lightAccepts: bool, status: int, lightBefore: seq<OnAirLightState>)
      reads this, userStates
    {
      var readable := userStates.ReadsAll(s.userId, Some(s.locationId));
      && (status == 201 || status == 500)
      && (status == 201 <==> readable && lightAccepts)
      && (lightStates != lightBefore <==> readable)
      && (!readable ==> lightStates == lightBefore)
      && (readable ==>
            exists states: seq<UserState>, order: seq<string> ::
              && FsUserStates.ListsEachOnce(userStates.Selected(s.userId, Some(s.locationId)), order, states)
              && lightStates == lightBefore + [GlobalLightState(states)])
    }

    /** The steps of `POST /events` after a converter has produced `s`: store it, read back the
        user's states at its location, aggregate them and set the light from the global ones.
        The status is 201, or 500 when the write, the read or the light fails; a failed write
        stops there. */
    method RecordUserState(s: UserState, stateWrite: Option<string>, lightAccepts: bool) returns (status: int)
      modifies this, userStates
      ensures stateWrite.Some? ==>
        status == 500 && userStates.files == old(userStates.files) && lightStates == old(lightStates)
      ensures stateWrite.None? ==>
        && userStates.files == old(userStates.files)[FsUserStates.UserStateKey(s) := Stored(s)]
        && LightFollowsStates(s, lightAccepts, status, old(lightStates))
    {
      var written := userStates.CreateUserState(s, stateWrite);
      if written.Err? {
        return 500;
      }
      var read;
      ghost var order;
      read, order := userStates.ReadUserStates(s.userId, Some(s.locationId));
      ghost var readable := userStates.ReadsAll(s.userId, Some(s.locationId));
      if read.Err? {
        assert !readable;
        return 500;
      }
      assert readable;
      ghost var selected := userStates.Selected(s.userId, Some(s.locationId));
      assert FsUserStates.ListsEachOnce(selected, order, read.value);
      var locations := AggregateActivitiesByLocation(read.value);
      var activities := if Locations.LocationIdGlobal in locations then locations[Locations.LocationIdGlobal] else {};
      assert activities == ActivitiesAt(read.value, Locations.LocationIdGlobal) by {
        if Locations.LocationIdGlobal !in locations {
          NoStatesNoActivities(read.value, Locations.LocationIdGlobal);
        }
      }
      lightStates := lightStates + [FromUserActivities(activities)];
      assert lightStates == old(lightStates) + [GlobalLightState(read.value)];
      status := if lightAccepts then 201 else 500;
      assert FsUserStates.ListsEachOnce(userStates.Selected(s.userId, Some(s.locationId)), order, read.value);
      assert lightStates != old(lightStates);
    }
  }

  lemma NoStatesNoActivities(states: seq<UserState>, loc: string)
    requires loc !in LocationsOf(states)
    ensures ActivitiesAt(states, loc) == {}
  {
  }
}
