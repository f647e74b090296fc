/** The DynamoDB-backed event store (events/dynamodb-events-service.ts): every event in one
    partition, sorted by timestamp then id. The table is a map from item key to event; the
    store's key codec is the same text form as `ItemKey.encode`/`decode`. */
module DynamoDbEvents {
  import opened Wrappers
  import opened Strings
  import opened Events
  import opened DynamoDb

  /** The key part of `toEventItem(event)`. */
  function EventItemKey(event: Event): (k: ItemKey)
    ensures k.primaryKey == "EVT:0000"
    ensures k.sortKey == "TST:" + event.timestamp + "#EID:" + event.eventId
  {
    TwoTuples(Timestamp, event.timestamp, EventId, event.eventId);
    ItemKey(GenerateKey([(EventPartition, "0000")]), GenerateKey([(Timestamp, event.timestamp), (EventId, event.eventId)]))
  }

  /** Two events get the same item, so the later overwrites the earlier, exactly when they share
      timestamp and id (for values without `#`). */
  lemma EventItemKeyInjective(e1: Event, e2: Event)
    requires Free(e1.timestamp, '#') && Free(e1.eventId, '#') && Free(e2.timestamp, '#') && Free(e2.eventId, '#')
    ensures EventItemKey(e1) == EventItemKey(e2) <==> e1.timestamp == e2.timestamp && e1.eventId == e2.eventId
  {
    var t1 := [(Timestamp, e1.timestamp), (EventId, e1.eventId)];
    var t2 := [(Timestamp, e2.timestamp), (EventId, e2.eventId)];
    if EventItemKey(e1) == EventItemKey(e2) {
      GenerateKeyInjective(t1, t2);
      assert t1[0] == t2[0] && t1[1] == t2[1];
    }
  }

  class DynamoDbEventsService {
    var table: map<ItemKey, Event>

    constructor(table0: map<ItemKey, Event>)
      ensures table == table0
    {
      table := table0;
    }

    /** `createEvent`: a put of the event item, then the encoded item key. `failure` is the
        error the `put` rejects with, if it does; it propagates and the table is unchanged. */
    method CreateEvent(event: Event, failure: Option<string>) returns (r: Result<string>)
      modifies this
      ensures failure.Some? ==> r == Err(failure.value) && unchanged(this)
      ensures failure.None? ==> r == Ok(Encode(EventItemKey(event))) && table == old(table)[EventItemKey(event) := event]
      ensures r.Ok? ==> ReadEvent(r.value) == Ok(Some(event))
      ensures r.Ok? ==> forall other :: Decode(other) != Some(EventItemKey(event)) ==> ReadEvent(other) == old(ReadEvent(other))
    {
      if failure.Some? {
        return Err(failure.value);
      }
      var k := EventItemKey(event);
      table := table[k := event];
      DecodeEncode(k);
      r := Ok(Encode(k));
    }

    /** `readEvent`: a key that does not decode makes `JSON.parse` throw; a decoded key with no
        item gives `undefined`. */
    function ReadEvent(eventKey: string): (r: Result<Option<Event>>)
      reads this
      ensures r.Err? <==> Decode(eventKey).None?
      ensures r.Ok? ==> (r.value.Some? <==> Decode(eventKey).value in table)
      ensures r.Ok? && r.value.Some? ==> r.value.value == table[Decode(eventKey).value]
    {
      GetItem(table, eventKey)
    }
  }
}
