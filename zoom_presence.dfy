/** Zoom's presence statuses and the status-to-activity table. The table appears twice in the
    source, identically (event-converters/zoom.ts and user-states/zoom.ts); it is defined once here. */
module ZoomPresence {
  import opened Wrappers
  import opened Json
  import opened LegacyUserStates

  const Statuses: set<string> :=
    {"Available", "Away", "Do_Not_Disturb", "In_Calendar_Event", "In_Meeting", "On_Phone_Call", "Presenting"}

  /** `statusToUserActivity`. The schema only requires `presence_status` to be present, so any
      JSON value can arrive; one outside the seven statuses falls through the switch (`None`). */
  function StatusToUserActivity(status: Json): (r: Option<LegacyActivity>)
    ensures status in {JStr("Available"), JStr("Away")} ==> r == Some(Idle)
    ensures status in {JStr("Do_Not_Disturb"), JStr("In_Calendar_Event")} ==> r == Some(Busy)
    ensures status in {JStr("In_Meeting"), JStr("On_Phone_Call")} ==> r == Some(Meeting)
    ensures status == JStr("Presenting") ==> r == Some(Presenting)
    ensures r.Some? <==> status.JStr? && status.s in Statuses
    ensures r != Some(Absent)
  {
    match status
    case JStr("Available") => Some(Idle)
    case JStr("Away") => Some(Idle)
    case JStr("Do_Not_Disturb") => Some(Busy)
    case JStr("In_Calendar_Event") => Some(Busy)
    case JStr("In_Meeting") => Some(Meeting)
    case JStr("On_Phone_Call") => Some(Meeting)
    case JStr("Presenting") => Some(Presenting)
    case _ => None
  }

  /** The `user.presence_status_updated` payload schema, shared verbatim by both Zoom converters.
      E-mail syntax is checked by yup's own pattern, which is a parameter here. Fields the schema
      does not name are ignored; `presence_status` need only be present and not null. */
  predicate IsPresenceStatusUpdated(data: Json, isEmail: string -> bool) {
    && data.JObj?
    && Field(data.fields, "event") == Some(JStr("user.presence_status_updated"))
    && RequiredNumber(data.fields, "event_ts")
    && RequiredObject(data.fields, "payload")
    && var payload := data.fields["payload"].fields;
       && RequiredString(payload, "account_id")
       && RequiredObject(payload, "object")
       && var obj := payload["object"].fields;
          && RequiredString(obj, "date_time")
          && RequiredString(obj, "email") && isEmail(StringAt(obj, "email"))
          && RequiredString(obj, "id")
          && RequiredPresent(obj, "presence_status")
  }

  /** `payload.object.presence_status` of a payload the schema accepted. */
  function PresenceStatus(data: Json, isEmail: string -> bool): Json
    requires IsPresenceStatusUpdated(data, isEmail)
  {
    data.fields["payload"].fields["object"].fields["presence_status"]
  }

  /** A payload built from its fields, the shape Zoom posts. */
  function PresencePayload(eventTs: int, accountId: string, dateTime: string, email: string, id: string, status: Json): Json {
    JObj(map[
      "event" := JStr("user.presence_status_updated"),
      "event_ts" := JNum(eventTs),
      "payload" := JObj(map[
        "account_id" := JStr(accountId),
        "object" := JObj(map[
          "date_time" := JStr(dateTime),
          "email" := JStr(email),
          "id" := JStr(id),
          "presence_status" := status])])])
  }

  /** Every payload Zoom can send with non-empty fields, a valid e-mail and a non-null status is
      accepted and yields its status; one whose `event` is anything else is rejected. */
  lemma PresencePayloadAccepted(eventTs: int, accountId: string, dateTime: string, email: string, id: string,
                                status: Json, isEmail: string -> bool, other: Json)
    requires accountId != "" && dateTime != "" && email != "" && id != "" && isEmail(email) && status != JNull
    ensures IsPresenceStatusUpdated(PresencePayload(eventTs, accountId, dateTime, email, id, status), isEmail)
    ensures PresenceStatus(PresencePayload(eventTs, accountId, dateTime, email, id, status), isEmail) == status
    ensures other != JStr("user.presence_status_updated") ==>
              !IsPresenceStatusUpdated(JObj(PresencePayload(eventTs, accountId, dateTime, email, id, status).fields["event" := other]), isEmail)
  {
  }
}
