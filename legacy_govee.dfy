/** The older Govee-through-IFTTT converter (user-states/govee-ifttt.ts): the payload carries no
    user, the user is fixed, and on/off become idle/absent. */
module LegacyGovee {
  import opened Wrappers
  import opened Json
  import opened Strings
  import opened Events
  import opened GoveeMessage
  import opened LegacyUserStates
  import UserStates

  /** The older schema: three required strings, no `userId`. Data that is `undefined` also
      passes it in the source (the object is not `.required()`); event data here is always a
      JSON value, so that path is not modelled. */
  predicate IsLegacyGoveeEvent(data: Json) {
    && data.JObj?
    && RequiredString(data.fields, "createdAt")
    && RequiredString(data.fields, "deviceName")
    && RequiredString(data.fields, "message") && Exec(StringAt(data.fields, "message")).Some?
  }

  const FixedUserId := "Robert"

  /** `convertToUserState(eventKey, event)`: on → idle, off → absent. */
  function ConvertToUserState(eventKey: string, event: Event): (r: Option<LegacyUserState>)
    ensures r.Some? <==> IsLegacyGoveeEvent(event.data)
    ensures r.Some? ==>
      && r.value.activity == Some(if Exec(event.data.fields["message"].s) == Some(On) then Idle else Absent)
      && r.value.eventKey == eventKey
      && r.value.source == UserStates.Source(event.data.fields["deviceName"].s, "Govee")
      && r.value.timestamp == event.timestamp
      && r.value.userId == FixedUserId
      && r.value.version == 1
  {
    if IsLegacyGoveeEvent(event.data) then
      var o := event.data.fields;
      match Exec(StringAt(o, "message"))
      case Some(onOrOff) =>
        Some(LegacyUserState(Some(if onOrOff == On then Idle else Absent), eventKey,
                             UserStates.Source(StringAt(o, "deviceName"), "Govee"), event.timestamp, FixedUserId, 1))
      case None => assert false; None
    else None
  }

  /** A well-formed older payload with `"<name>" turned on!` gives idle, with `off!` absent;
      an extra `userId` field changes nothing. */
  lemma LegacyGoveeRoundTrip(createdAt: string, deviceName: string, p: string, name: string, x: OnOrOff, q: string,
                             extra: Json, event: Event, eventKey: string)
    requires createdAt != "" && deviceName != ""
    requires name != [] && Free(name, '"') && Free(p, '"')
    requires event.data == JObj(map["createdAt" := JStr(createdAt), "deviceName" := JStr(deviceName),
                                    "message" := JStr(p + Message(name, x) + q), "userId" := extra])
    ensures ConvertToUserState(eventKey, event) ==
      Some(LegacyUserState(Some(if x == On then Idle else Absent), eventKey,
                           UserStates.Source(deviceName, "Govee"), event.timestamp, FixedUserId, 1))
  {
    var message := p + Message(name, x) + q;
    ExecFindsMessage(p, name, x, q);
    assert message != [];
    var o := event.data.fields;
    assert o["createdAt"] == JStr(createdAt) && o["deviceName"] == JStr(deviceName);
    assert o["message"] == JStr(message);
    assert IsLegacyGoveeEvent(event.data);
  }
}
