/** The in-memory event store (events/mock-events-service.ts): a map from event id to event. */
module MockEvents {
  import opened Wrappers
  import opened Events

  class MockEventsService {
    var events: map<string, Event>

    constructor()
      ensures events == map[] && Keyed()
    {
      events := map[];
    }

    /** `createEvent`: the key is the event's id; an event with the same id is replaced. */
    method CreateEvent(event: Event) returns (eventKey: string)
      modifies this
      ensures eventKey == event.eventId
      ensures old(Keyed()) ==> Keyed()
      ensures events == old(events)[eventKey := event]
      ensures ReadEvent(eventKey) == Some(event)
      ensures forall other :: other != eventKey ==> ReadEvent(other) == old(ReadEvent(other))
    {
      eventKey := event.eventId;
      events := events[eventKey := event];
    }

    /** `readEvent`: `undefined` for an unknown key. */
    function ReadEvent(eventKey: string): (r: Option<Event>)
      reads this
      ensures r.None? <==> eventKey !in events
      ensures r.Some? ==> r.value == events[eventKey]
      ensures Keyed() && r.Some? ==> r.value.eventId == eventKey
    {
      if eventKey in events then Some(events[eventKey]) else None
    }

    /** Every stored event sits under its own id, as `CreateEvent` puts it. */
    predicate Keyed()
      reads this
    {
      forall k :: k in events ==> events[k].eventId == k
    }
  }
}
