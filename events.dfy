/** Stored events: the merged request data, a unique id and an ISO-8601 timestamp. */
module Events {
  import opened Json

  datatype Event = Event(data: Json, eventId: string, timestamp: string)

  datatype EventAndKey = EventAndKey(event: Event, eventKey: string)
}
