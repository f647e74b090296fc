/** The Govee-through-IFTTT converter (event-converters/govee-ifttt.ts): a lamp switched on means
    someone is present; switched off, nobody is. */
module GoveeConverter {
  import opened Wrappers
  import opened Json
  import opened Strings
  import opened UserStates
  import opened Events
  import opened GoveeMessage
  import Locations

  /** `GoveeIftttOnOrOffEvent.schema.isValidSync(data)`: four required strings, the message
      matching the on/off pattern somewhere. */
  predicate IsGoveeEvent(data: Json) {
    && data.JObj?
    && RequiredString(data.fields, "createdAt")
    && RequiredString(data.fields, "deviceName")
    && RequiredString(data.fields, "message") && Exec(StringAt(data.fields, "message")).Some?
    && RequiredString(data.fields, "userId")
  }

  const GoveeServiceName := "Govee"

  /** `convertToUserState`. The `TypeError` the source throws when the pattern yields no
      `onOrOff` group cannot happen: the schema has already matched the same pattern. */
  function ConvertToUserState(eventAndKey: EventAndKey): (r: Option<UserState>)
    ensures r.Some? <==> IsGoveeEvent(eventAndKey.event.data)
    ensures r.Some? ==>
      var o := eventAndKey.event.data.fields;
      && r.value.activities == (if Exec(o["message"].s) == Some(On) then [Detected] else [])
      && r.value.eventKey == eventAndKey.eventKey
      && r.value.locationId == Locations.LocationIdGlobal
      && r.value.source == Source(o["deviceName"].s, GoveeServiceName)
      && r.value.timestamp == eventAndKey.event.timestamp
      && r.value.userId == o["userId"].s
      && r.value.version == 1
  {
    var data := eventAndKey.event.data;
    if IsGoveeEvent(data) then
      var o := data.fields;
      match Exec(StringAt(o, "message"))
      case Some(onOrOff) =>
        Some(UserState(if onOrOff == On then [Detected] else [], eventAndKey.eventKey,
                       Locations.LocationIdGlobal, Source(StringAt(o, "deviceName"), GoveeServiceName),
                       eventAndKey.event.timestamp, StringAt(o, "userId"), 1))
      case None => assert false; None
    else None
  }

  function Payload(createdAt: string, deviceName: string, message: string, userId: string): Json {
    JObj(map["createdAt" := JStr(createdAt), "deviceName" := JStr(deviceName),
             "message" := JStr(message), "userId" := JStr(userId)])
  }

  /** The payload's strings are where the schema looks for them. */
  lemma PayloadFields(createdAt: string, deviceName: string, message: string, userId: string)
    ensures var o := Payload(createdAt, deviceName, message, userId).fields;
      && o["createdAt"] == JStr(createdAt) && o["deviceName"] == JStr(deviceName)
      && o["message"] == JStr(message) && o["userId"] == JStr(userId)
  {
  }

  /** An IFTTT payload whose message reads `"<name>" turned on!` (or `off!`), preceded by text
      without quotes and followed by anything, becomes a detection (or an empty observation)
      at the global location, attributed to the payload's device and user. */
  lemma GoveeRoundTrip(createdAt: string, deviceName: string, userId: string,
                       p: string, name: string, x: OnOrOff, q: string, event: Event, eventKey: string)
    requires createdAt != "" && deviceName != "" && userId != ""
    requires name != [] && Free(name, '"') && Free(p, '"')
    requires event.data == Payload(createdAt, deviceName, p + Message(name, x) + q, userId)
    ensures ConvertToUserState(EventAndKey(event, eventKey)) ==
      Some(UserState(if x == On then [Detected] else [], eventKey, Locations.LocationIdGlobal,
                     Source(deviceName, GoveeServiceName), event.timestamp, userId, 1))
  {
    var message := p + Message(name, x) + q;
    ExecFindsMessage(p, name, x, q);
    assert message != [];
    PayloadFields(createdAt, deviceName, message, userId);
    assert IsGoveeEvent(event.data);
  }

  /** A message in which the pattern matches nowhere rejects the whole payload. */
  lemma UnmatchedMessageRejected(createdAt: string, deviceName: string, message: string, userId: string, event: Event, eventKey: string)
    requires Exec(message).None? && event.data == Payload(createdAt, deviceName, message, userId)
    ensures ConvertToUserState(EventAndKey(event, eventKey)).None?
  {
  }
}
